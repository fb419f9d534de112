/** The incrementally kept `_index.md`: `_generate_index`, `_append_or_update_index_line`,
    `_remove_index_line` and `_recount_index_sections` of memem/obsidian_store.py. */
module VaultIndex {
  import opened IndexLine
  import opened PyStrings
  import opened Wrappers

  // ---------------------------------------------------------------------------
  // Lines
  // ---------------------------------------------------------------------------

  /** A line of the index. A heading reads "## name (count memories)"; a bullet is its whole
      line and, for the statements below, the memory it was written for. */
  datatype Line =
    | Title
    | Updated(total: nat)
    | Blank
    | Heading(name: string, count: nat)
    | Bullet(id8: string, line: string)

  /** A memory as the index sees it. */
  datatype Mem = Mem(id8: string, project: string, line: string, created: int, active: bool)

  type Vault = map<string, Mem>

  const GENERAL := "general"

  function ViewOf(c: Card): Mem { Mem(c.id8, ProjectOf(c), LineOf(c), c.created, c.active) }

  function BulletOf(m: Mem): Line { Bullet(m.id8, m.line) }

  /** The test "(id8)" in line, for a bullet. */
  predicate Names(l: Line, id8: string) { l.Bullet? && Contains(l.line, Token(id8)) }

  /** A line that reading the file gives back as one line. */
  predicate Readable(l: Line) {
    match l
    case Heading(name, _) => !BreaksLine(name)
    case Bullet(_, line) => !BreaksLine(line)
    case _ => true
  }

  predicate AllReadable(lines: seq<Line>) { forall i :: 0 <= i < |lines| ==> Readable(lines[i]) }

  predicate BreaksLine(s: string) { exists i :: 0 <= i < |s| && IsLineEnd(s[i]) }

  function WithoutBullets(lines: seq<Line>, id8: string): seq<Line> {
    if lines == [] then []
    else if Names(lines[0], id8) then WithoutBullets(lines[1..], id8)
    else [lines[0]] + WithoutBullets(lines[1..], id8)
  }

  /** The test line.startswith("## project ("), for the name in a heading. */
  predicate Fits(name: string, project: string) { project + " (" <= name + " (" }

  predicate IsHeadingOf(l: Line, project: string) { l.Heading? && Fits(l.name, project) }

  function FindHeading(lines: seq<Line>, project: string): (r: Option<nat>)
    ensures r.Some? ==> r.value < |lines| && IsHeadingOf(lines[r.value], project)
    ensures r.None? ==> forall i :: 0 <= i < |lines| ==> !IsHeadingOf(lines[i], project)
  {
    if lines == [] then None
    else if IsHeadingOf(lines[0], project) then Some(0)
    else match FindHeading(lines[1..], project)
         case None => None
         case Some(i) => Some(i + 1)
  }

  function UpToParen(s: string): string {
    if s == "" || s[0] == '(' then "" else [s[0]] + UpToParen(s[1..])
  }

  /** A recount rebuilds the heading from what stands before its first parenthesis; when that
      is blank, the "##" of the heading itself becomes the name. */
  function Renamed(name: string): string {
    var front := Strip(UpToParen(name));
    if front == "" then "##" else front
  }

  /** Bullets up to the next heading. */
  function Run(lines: seq<Line>): nat {
    if lines == [] || lines[0].Heading? then 0
    else (if lines[0].Bullet? then 1 else 0) + Run(lines[1..])
  }

  function Total(lines: seq<Line>): nat {
    if lines == [] then 0 else (if lines[0].Bullet? then 1 else 0) + Total(lines[1..])
  }

  function Recounted(lines: seq<Line>): seq<Line> {
    seq(|lines|, i requires 0 <= i < |lines| =>
      match lines[i]
      case Heading(name, _) => Heading(Renamed(name), Run(lines[i + 1..]))
      case Updated(_) => if FirstUpdated(lines, i) then Updated(Total(lines)) else lines[i]
      case _ => lines[i])
  }

  predicate FirstUpdated(lines: seq<Line>, i: nat)
    requires i < |lines|
  {
    lines[i].Updated? && forall j :: 0 <= j < i ==> !lines[j].Updated?
  }

  function Inserted(kept: seq<Line>, m: Mem): seq<Line> {
    match FindHeading(kept, m.project)
    case Some(i) => kept[..i + 1] + [BulletOf(m)] + kept[i + 1..]
    case None => kept + Section(m.project, [BulletOf(m)])
  }

  function WithLine(lines: seq<Line>, m: Mem): seq<Line> { Inserted(WithoutBullets(lines, m.id8), m) }

  function Section(project: string, bullets: seq<Line>): seq<Line> {
    [Blank, Heading(project, |bullets|)] + bullets
  }

  class IndexFile {
    var lines: seq<Line>

    method AppendOrUpdate(m: Mem)
      modifies this
      ensures lines == Recounted(WithLine(old(lines), m))
    {
      RemoveBullets(m.id8);
      var inserted := false;
      var idx := 0;
      ghost var kept := lines;
      while idx < |lines| && !inserted
        invariant 0 <= idx <= |kept|
        invariant !inserted ==> lines == kept && forall i :: 0 <= i < idx ==> !IsHeadingOf(kept[i], m.project)
        invariant inserted ==> lines == WithLine(old(lines), m)
        decreases !inserted, |kept| - idx
      {
        if IsHeadingOf(lines[idx], m.project) {
          FirstHeading(kept, m.project, idx);
          lines := lines[..idx + 1] + [BulletOf(m)] + lines[idx + 1..];
          inserted := true;
        } else {
          idx := idx + 1;
        }
      }
      if !inserted {
        assert FindHeading(kept, m.project).None?;
        lines := lines + [Blank, Heading(m.project, 1), BulletOf(m)];
        assert lines == kept + Section(m.project, [BulletOf(m)]);
      }
      Recount();
    }

    method Remove(id8: string)
      modifies this
      ensures lines == Recounted(WithoutBullets(old(lines), id8))
    {
      RemoveBullets(id8);
      Recount();
    }

    method RemoveBullets(id8: string)
      modifies this
      ensures lines == WithoutBullets(old(lines), id8)
    {
      var kept: seq<Line> := [];
      for i := 0 to |lines|
        invariant lines == old(lines)
        invariant kept + WithoutBullets(lines[i..], id8) == WithoutBullets(lines, id8)
      {
        assert lines[i..][1..] == lines[i + 1..];
        if !Names(lines[i], id8) {
          kept := kept + [lines[i]];
        }
      }
      lines := kept;
    }

    method CountBelow(idx: nat) returns (count: nat)
      requires idx < |lines|
      ensures count == Run(lines[idx + 1..])
    {
      count := 0;
      var j := idx + 1;
      while j < |lines| && !lines[j].Heading?
        invariant idx < j <= |lines|
        invariant count + Run(lines[j..]) == Run(lines[idx + 1..])
      {
        assert lines[j..][1..] == lines[j + 1..];
        if lines[j].Bullet? {
          count := count + 1;
        }
        j := j + 1;
      }
    }

    method CountBullets() returns (total: nat)
      ensures total == Total(lines)
    {
      total := 0;
      for idx := 0 to |lines|
        invariant total + Total(lines[idx..]) == Total(lines)
      {
        assert lines[idx..][1..] == lines[idx + 1..];
        if lines[idx].Bullet? {
          total := total + 1;
        }
      }
      assert lines[|lines|..] == [];
    }

    method Recount()
      modifies this
      ensures lines == Recounted(old(lines))
    {
      ghost var was := lines;
      var total := CountBullets();
      for idx := 0 to |lines|
        invariant |lines| == |was|
        invariant forall i :: 0 <= i < |was| ==>
                    lines[i] == if i < idx && was[i].Heading? then Recounted(was)[i] else was[i]
      {
        if lines[idx].Heading? {
          var count := CountBelow(idx);
          assert lines[idx + 1..] == was[idx + 1..];
          lines := lines[idx := Heading(Renamed(lines[idx].name), count)];
        }
      }
      var k := 0;
      while k < |lines| && !lines[k].Updated?
        invariant 0 <= k <= |lines|
        invariant forall i :: 0 <= i < k ==> !was[i].Updated?
      {
        k := k + 1;
      }
      if k < |lines| {
        lines := lines[k := Updated(total)];
      }
    }
  }

  lemma {:induction false} FirstHeading(lines: seq<Line>, project: string, i: nat)
    requires i < |lines| && IsHeadingOf(lines[i], project)
    requires forall j :: 0 <= j < i ==> !IsHeadingOf(lines[j], project)
    ensures FindHeading(lines, project) == Some(i)
  {
    if i > 0 {
      FirstHeading(lines[1..], project, i - 1);
    }
  }

  // ---------------------------------------------------------------------------
  // What an index says
  // ---------------------------------------------------------------------------

  type Entry = (Option<string>, Line)

  function Under(under: Option<string>, l: Line): Option<string> {
    if l.Heading? then Some(l.name) else under
  }

  /** Each bullet with the heading it stands under; `under` is the heading before the lines. */
  function Filed(under: Option<string>, lines: seq<Line>): multiset<Entry>
    decreases |lines|
  {
    if lines == [] then multiset{}
    else if lines[0].Bullet? then multiset{(under, lines[0])} + Filed(under, lines[1..])
    else Filed(Under(under, lines[0]), lines[1..])
  }

  function LastHeading(under: Option<string>, lines: seq<Line>): Option<string>
    decreases |lines|
  {
    if lines == [] then under else LastHeading(Under(under, lines[0]), lines[1..])
  }

  function Active(v: Vault): set<string> { set k | k in v && v[k].active }

  function EntryOf(m: Mem): Entry { (Some(m.project), BulletOf(m)) }

  function Entries(v: Vault, ids: set<string>): set<Entry> {
    set k | k in ids && k in v :: EntryOf(v[k])
  }

  /** The active memories, each under its project. */
  function Listed(v: Vault): multiset<Entry> { multiset(Entries(v, Active(v))) }

  function HeadingNames(lines: seq<Line>): seq<string> {
    if lines == [] then []
    else if lines[0].Heading? then [lines[0].name] + HeadingNames(lines[1..])
    else HeadingNames(lines[1..])
  }

  predicate Distinct(names: seq<string>) {
    forall i, j :: 0 <= i < j < |names| ==> names[i] != names[j]
  }

  predicate CountsExact(lines: seq<Line>) {
    forall i :: 0 <= i < |lines| && lines[i].Heading? ==> lines[i].count == Run(lines[i + 1..])
  }

  /** Title and date line come first, and there is no second date line. */
  predicate PreambleOk(lines: seq<Line>) {
    && |lines| >= 2 && lines[0] == Title && lines[1].Updated?
    && forall i :: 2 <= i < |lines| ==> !lines[i].Updated?
  }

  /** The lines list exactly the active memories, once each and under their project, with one
      heading for a project, exact counts and an exact total. */
  predicate Lists(lines: seq<Line>, v: Vault) {
    && Filed(None, lines) == Listed(v)
    && Distinct(HeadingNames(lines)) && CountsExact(lines)
    && PreambleOk(lines) && lines[1].total == Total(lines)
  }

  /** The index of a vault: it is also read back as the lines that were written. */
  predicate Indexes(lines: seq<Line>, v: Vault) {
    Lists(lines, v) && AllReadable(lines)
  }

  /** A project name that survives a recount; PlainMeans says which names those are. */
  predicate Plain(project: string) { Renamed(project) == project }

  /** Every memory is filed under its id, and its line carries it. */
  predicate Keyed(v: Vault) { forall k :: k in v ==> v[k].id8 == k && Contains(v[k].line, Token(k)) }

  lemma {:induction false} UpToParenFacts(s: string)
    ensures '(' !in UpToParen(s)
    ensures '(' !in s ==> UpToParen(s) == s
  {
    if s != "" {
      UpToParenFacts(s[1..]);
    }
  }

  lemma {:induction false} TrimStartSubset(s: string, c: char)
    requires c in TrimStart(s)
    ensures c in s
  {
    if s != "" && IsSpace(s[0]) {
      TrimStartSubset(s[1..], c);
    }
  }

  lemma StripSubset(s: string, c: char)
    requires c in Strip(s)
    ensures c in s
  {
    TrimEndFacts(TrimStart(s));
    assert c in TrimStart(s);
    TrimStartSubset(s, c);
  }

  lemma PlainMeans(p: string)
    ensures Plain(p) <==> p != "" && '(' !in p && Trimmed(p)
  {
    UpToParenFacts(p);
    StripFacts(UpToParen(p));
    if '(' in Strip(UpToParen(p)) {
      StripSubset(UpToParen(p), '(');
    }
  }

  /** Whatever a recount writes survives the next one. */
  lemma RenamedIsPlain(name: string)
    ensures Plain(Renamed(name))
  {
    UpToParenFacts(name);
    StripFacts(UpToParen(name));
    if '(' in Strip(UpToParen(name)) {
      StripSubset(UpToParen(name), '(');
    }
    PlainMeans(Renamed(name));
  }

  // ---------------------------------------------------------------------------
  // Lines side by side
  // ---------------------------------------------------------------------------

  lemma {:induction false} FiledConcat(under: Option<string>, a: seq<Line>, b: seq<Line>)
    ensures Filed(under, a + b) == Filed(under, a) + Filed(LastHeading(under, a), b)
    decreases |a|
  {
    if a == [] {
      assert a + b == b;
    } else {
      assert (a + b)[1..] == a[1..] + b;
      FiledConcat(Under(under, a[0]), a[1..], b);
    }
  }

  lemma {:induction false} NamesConcat(a: seq<Line>, b: seq<Line>)
    ensures HeadingNames(a + b) == HeadingNames(a) + HeadingNames(b)
  {
    if a == [] {
      assert a + b == b;
    } else {
      assert (a + b)[1..] == a[1..] + b;
      NamesConcat(a[1..], b);
    }
  }

  lemma {:induction false} RunOfConcat(a: seq<Line>, b: seq<Line>)
    requires Run(b) == 0
    ensures Run(a + b) == Run(a)
  {
    if a == [] {
      assert a + b == b;
    } else {
      assert (a + b)[1..] == a[1..] + b;
      RunOfConcat(a[1..], b);
    }
  }

  lemma CountsConcat(a: seq<Line>, b: seq<Line>)
    requires CountsExact(a) && CountsExact(b) && Run(b) == 0
    ensures CountsExact(a + b)
  {
    var all := a + b;
    forall i | 0 <= i < |all| && all[i].Heading? ensures all[i].count == Run(all[i + 1..]) {
      if i < |a| {
        assert all[i + 1..] == a[i + 1..] + b;
        RunOfConcat(a[i + 1..], b);
      } else {
        assert all[i + 1..] == b[i - |a| + 1..];
      }
    }
  }

  lemma {:induction false} OnlyBullets(under: Option<string>, bullets: seq<Line>)
    requires forall i :: 0 <= i < |bullets| ==> bullets[i].Bullet?
    ensures LastHeading(under, bullets) == under && HeadingNames(bullets) == []
    ensures Run(bullets) == |bullets|
  {
    if bullets != [] {
      OnlyBullets(under, bullets[1..]);
    }
  }

  lemma SectionFacts(under: Option<string>, p: string, bullets: seq<Line>)
    requires forall i :: 0 <= i < |bullets| ==> bullets[i].Bullet?
    ensures var s := Section(p, bullets);
            && Filed(under, s) == Filed(Some(p), bullets) && HeadingNames(s) == [p]
            && Run(s) == 0 && CountsExact(s)
  {
    var s := Section(p, bullets);
    assert s[1..] == [Heading(p, |bullets|)] + bullets && s[1..][1..] == bullets;
    OnlyBullets(Some(p), bullets);
    forall i | 0 <= i < |s| && s[i].Heading? ensures s[i].count == Run(s[i + 1..]) {
      assert i == 1 && s[2..] == bullets;
    }
  }

  lemma {:induction false} HeadingLast(under: Option<string>, front: seq<Line>, h: Line)
    requires h.Heading?
    ensures LastHeading(under, front + [h]) == Some(h.name)
    decreases |front|
  {
    if front == [] {
      assert front + [h] == [h];
      assert [h][1..] == [];
    } else {
      assert (front + [h])[1..] == front[1..] + [h];
      HeadingLast(Under(under, front[0]), front[1..], h);
    }
  }

  lemma {:induction false} NameOfHeading(lines: seq<Line>, i: nat)
    requires i < |lines| && lines[i].Heading?
    ensures lines[i].name in HeadingNames(lines)
  {
    if i > 0 {
      NameOfHeading(lines[1..], i - 1);
    }
  }

  lemma {:induction false} HeadingOfName(lines: seq<Line>, name: string) returns (i: nat)
    requires name in HeadingNames(lines)
    ensures i < |lines| && lines[i].Heading? && lines[i].name == name
  {
    if lines[0].Heading? && lines[0].name == name {
      i := 0;
    } else {
      i := HeadingOfName(lines[1..], name);
      i := i + 1;
    }
  }
  lemma SectionAdded(lines: seq<Line>, p: string, bullets: seq<Line>)
    requires Distinct(HeadingNames(lines)) && CountsExact(lines) && p !in HeadingNames(lines)
    requires forall i :: 0 <= i < |bullets| ==> bullets[i].Bullet?
    ensures var more := lines + Section(p, bullets);
            && Filed(None, more) == Filed(None, lines) + Filed(Some(p), bullets)
            && HeadingNames(more) == HeadingNames(lines) + [p]
            && Distinct(HeadingNames(more)) && CountsExact(more)
  {
    SectionFacts(LastHeading(None, lines), p, bullets);
    FiledConcat(None, lines, Section(p, bullets));
    NamesConcat(lines, Section(p, bullets));
    CountsConcat(lines, Section(p, bullets));
  }

  lemma EmptyIndex(total: nat)
    ensures Filed(None, [Title, Updated(total)]) == multiset{} && HeadingNames([Title, Updated(total)]) == []
  {
    var lines := [Title, Updated(total)];
    var rest := lines[1..];
    assert rest[1..] == [];
    assert Filed(None, rest) == multiset{} && HeadingNames(rest) == [];
  }

  lemma EntriesAdd(v: Vault, ids: set<string>, k: string)
    requires Keyed(v) && k in v && k !in ids
    ensures multiset(Entries(v, ids + {k})) == multiset(Entries(v, ids)) + multiset{EntryOf(v[k])}
  {
    assert Entries(v, ids + {k}) == Entries(v, ids) + {EntryOf(v[k])};
    assert EntryOf(v[k]) !in Entries(v, ids);
  }

  lemma {:induction false} FiledSize(under: Option<string>, lines: seq<Line>)
    ensures |Filed(under, lines)| == Total(lines)
    decreases |lines|
  {
    if lines != [] {
      FiledSize(Under(under, lines[0]), lines[1..]);
    }
  }

  lemma {:induction false} FiledUnderHeading(under: Option<string>, lines: seq<Line>, x: Entry)
    requires x in Filed(under, lines)
    ensures x.1 in lines && x.1.Bullet? && (x.0 == under || (x.0.Some? && x.0.value in HeadingNames(lines)))
    decreases |lines|
  {
    if !(lines[0].Bullet? && x == (under, lines[0])) {
      FiledUnderHeading(Under(under, lines[0]), lines[1..], x);
    }
  }

  lemma {:induction false} BulletIsFiled(under: Option<string>, lines: seq<Line>, b: Line) returns (h: Option<string>)
    requires b in lines && b.Bullet?
    ensures (h, b) in Filed(under, lines)
    decreases |lines|
  {
    if lines[0] == b {
      h := under;
    } else {
      h := BulletIsFiled(Under(under, lines[0]), lines[1..], b);
    }
  }

  // ---------------------------------------------------------------------------
  // Recounting
  // ---------------------------------------------------------------------------

  function Relabelled(lines: seq<Line>): seq<Line> {
    seq(|lines|, i requires 0 <= i < |lines| =>
      if lines[i].Heading? then lines[i].(name := Renamed(lines[i].name)) else lines[i])
  }

  function RenamedAll(names: seq<string>): seq<string> {
    seq(|names|, i requires 0 <= i < |names| => Renamed(names[i]))
  }

  function RenamedUnder(under: Option<string>): Option<string> {
    if under.Some? then Some(Renamed(under.value)) else None
  }

  lemma {:induction false} RelabelledNames(lines: seq<Line>)
    ensures HeadingNames(Relabelled(lines)) == RenamedAll(HeadingNames(lines))
  {
    if lines != [] {
      RelabelledNames(lines[1..]);
      assert Relabelled(lines)[1..] == Relabelled(lines[1..]);
    }
  }

  /** Relabelling moves no bullet that stands under a plain heading. */
  lemma {:induction false} RelabelledFiled(under: Option<string>, lines: seq<Line>)
    requires forall x :: x in Filed(under, lines) ==> RenamedUnder(x.0) == x.0
    ensures Filed(RenamedUnder(under), Relabelled(lines)) == Filed(under, lines)
    decreases |lines|
  {
    if lines != [] {
      assert Relabelled(lines)[1..] == Relabelled(lines[1..]);
      if lines[0].Bullet? {
        assert (under, lines[0]) in Filed(under, lines);
      }
      RelabelledFiled(Under(under, lines[0]), lines[1..]);
    }
  }

  predicate SameButCounts(a: seq<Line>, b: seq<Line>) {
    |a| == |b| && forall i :: 0 <= i < |a| ==> SameButCount(a[i], b[i])
  }

  predicate SameButCount(a: Line, b: Line) {
    match a
    case Heading(name, _) => b.Heading? && b.name == name
    case Updated(_) => b.Updated?
    case _ => b == a
  }

  lemma {:induction false} CountsDoNotFile(under: Option<string>, a: seq<Line>, b: seq<Line>)
    requires SameButCounts(a, b)
    ensures Filed(under, a) == Filed(under, b) && HeadingNames(a) == HeadingNames(b)
    decreases |a|
  {
    if a != [] {
      assert SameButCount(a[0], b[0]);
      assert SameButCounts(a[1..], b[1..]) by {
        forall i | 0 <= i < |a[1..]| ensures SameButCount(a[1..][i], b[1..][i]) {
          assert SameButCount(a[i + 1], b[i + 1]);
        }
      }
      CountsDoNotFile(Under(under, a[0]), a[1..], b[1..]);
    }
  }

  predicate SameKind(a: Line, b: Line) { a.Heading? == b.Heading? && a.Bullet? == b.Bullet? }

  predicate SameKinds(a: seq<Line>, b: seq<Line>) {
    |a| == |b| && forall i :: 0 <= i < |a| ==> SameKind(a[i], b[i])
  }

  lemma {:induction false} KindsDecideNumbers(a: seq<Line>, b: seq<Line>)
    requires SameKinds(a, b)
    ensures Run(a) == Run(b) && Total(a) == Total(b)
  {
    if a != [] {
      assert SameKind(a[0], b[0]);
      assert SameKinds(a[1..], b[1..]) by {
        forall i | 0 <= i < |a[1..]| ensures SameKind(a[1..][i], b[1..][i]) {
          assert SameKind(a[i + 1], b[i + 1]);
        }
      }
      KindsDecideNumbers(a[1..], b[1..]);
    }
  }

  /** A recount makes all numbers exact; apart from that it only renames the headings. */
  lemma RecountExact(lines: seq<Line>)
    requires PreambleOk(lines)
    ensures var r := Recounted(lines);
            && CountsExact(r) && PreambleOk(r) && r[1].total == Total(r)
            && Filed(None, r) == Filed(None, Relabelled(lines))
            && HeadingNames(r) == RenamedAll(HeadingNames(lines))
  {
    var r := Recounted(lines);
    forall i | 0 <= i < |r| && r[i].Heading? ensures r[i].count == Run(r[i + 1..]) {
      KindsDecideNumbers(lines[i + 1..], r[i + 1..]);
    }
    KindsDecideNumbers(lines, r);
    assert FirstUpdated(lines, 1);
    CountsDoNotFile(None, Relabelled(lines), r);
    RelabelledNames(lines);
  }

  /** After a recount no memory of a project whose name is not plain is filed under it. */
  lemma RelabelledProjectIsLost(lines: seq<Line>, v: Vault, k: string)
    requires k in Active(v) && !Plain(v[k].project)
    ensures Filed(None, Recounted(lines)) != Listed(v)
  {
    var r, x := Recounted(lines), EntryOf(v[k]);
    if x in Filed(None, r) {
      FiledUnderHeading(None, r, x);
      var i := HeadingOfName(r, v[k].project);
      RenamedIsPlain(lines[i].name);
    }
    assert x in Entries(v, Active(v));
  }

  lemma {:induction false} RenamedReadable(name: string)
    requires !BreaksLine(name)
    ensures !BreaksLine(Renamed(name))
  {
    var front := UpToParen(name);
    forall i | 0 <= i < |Strip(front)| ensures !IsLineEnd(Strip(front)[i]) {
      StripSubset(front, Strip(front)[i]);
      UpToParenSubset(name, Strip(front)[i]);
    }
  }

  lemma {:induction false} UpToParenSubset(s: string, c: char)
    requires c in UpToParen(s)
    ensures c in s
  {
    if c != s[0] {
      UpToParenSubset(s[1..], c);
    }
  }

  predicate ReadableOnceShown(l: Line) {
    if l.Heading? then !BreaksLine(Renamed(l.name)) else Readable(l)
  }

  predicate ShownReadable(lines: seq<Line>) { forall i :: 0 <= i < |lines| ==> ReadableOnceShown(lines[i]) }

  lemma RecountReadable(lines: seq<Line>)
    ensures AllReadable(Recounted(lines)) <==> ShownReadable(lines)
  {
    var r := Recounted(lines);
    assert forall i :: 0 <= i < |lines| ==> (Readable(r[i]) <==> ReadableOnceShown(lines[i]));
  }

  // ---------------------------------------------------------------------------
  // Removing a bullet
  // ---------------------------------------------------------------------------

  lemma {:induction false} WithoutFiled(under: Option<string>, lines: seq<Line>, id8: string, x: Entry)
    ensures Filed(under, WithoutBullets(lines, id8))[x] == if Names(x.1, id8) then 0 else Filed(under, lines)[x]
    decreases |lines|
  {
    if lines != [] {
      WithoutFiled(Under(under, lines[0]), lines[1..], id8, x);
      var rest := WithoutBullets(lines[1..], id8);
      assert ([lines[0]] + rest)[1..] == rest;
    }
  }

  lemma {:induction false} WithoutKeepsShape(lines: seq<Line>, id8: string)
    ensures HeadingNames(WithoutBullets(lines, id8)) == HeadingNames(lines)
    ensures forall l :: l in WithoutBullets(lines, id8) ==> l in lines
  {
    if lines != [] {
      WithoutKeepsShape(lines[1..], id8);
      var rest := WithoutBullets(lines[1..], id8);
      assert ([lines[0]] + rest)[1..] == rest;
    }
  }

  lemma WithoutKeepsPreamble(lines: seq<Line>, id8: string)
    requires PreambleOk(lines)
    ensures PreambleOk(WithoutBullets(lines, id8))
  {
    var kept, rest := WithoutBullets(lines, id8), WithoutBullets(lines[2..], id8);
    assert lines[1..][1..] == lines[2..];
    assert WithoutBullets(lines[1..], id8) == [lines[1]] + rest;
    assert kept == [lines[0]] + ([lines[1]] + rest);
    WithoutKeepsShape(lines[2..], id8);
    forall i | 2 <= i < |kept| ensures !kept[i].Updated? {
      assert kept[i] == rest[i - 2];
      assert kept[i] in lines[2..];
    }
  }

  /** A line stays where it is among the others exactly when it does not name the id. */
  lemma {:induction false} WithoutInOrder(a: seq<Line>, l: Line, b: seq<Line>, id8: string)
    ensures WithoutBullets(a + [l] + b, id8)
            == WithoutBullets(a, id8) + (if l.Bullet? && Contains(l.line, "(" + id8 + ")") then [] else [l])
               + WithoutBullets(b, id8)
  {
    var all := a + [l] + b;
    if a == [] {
      assert all == [l] + b && all[1..] == b;
    } else {
      assert all[0] == a[0] && all[1..] == a[1..] + [l] + b;
      WithoutInOrder(a[1..], l, b, id8);
    }
  }

  /** A saved memory's line stands right below the first heading of its project, above the older
      lines; without such a heading it ends the file, below a blank line and a new heading. */
  lemma FiledOnTop(lines: seq<Line>, m: Mem) returns (i: nat)
    ensures var kept, w := WithoutBullets(lines, m.id8), WithLine(lines, m);
            && 0 < i < |w| && w[i] == BulletOf(m) && IsHeadingOf(w[i - 1], m.project)
            && (forall j :: 0 <= j < i - 1 ==> !IsHeadingOf(w[j], m.project))
            && (w[..i] + w[i + 1..] == kept
                || (w == kept + [Blank, Heading(m.project, 1), BulletOf(m)]
                    && forall j :: 0 <= j < |kept| ==> !IsHeadingOf(kept[j], m.project)))
  {
    var kept, w := WithoutBullets(lines, m.id8), WithLine(lines, m);
    match FindHeading(kept, m.project)
    case Some(h) =>
      i := h + 1;
      assert w[..i] + w[i + 1..] == kept;
      FirstFound(kept, m.project);
    case None =>
      i := |kept| + 2;
      assert w == kept + [Blank, Heading(m.project, 1), BulletOf(m)];
  }

  lemma {:induction false} FirstFound(lines: seq<Line>, project: string)
    ensures var r := FindHeading(lines, project);
            forall j :: 0 <= j < |lines| && (r.Some? ==> j < r.value) ==> !IsHeadingOf(lines[j], project)
  {
    if lines != [] && !IsHeadingOf(lines[0], project) {
      FirstFound(lines[1..], project);
      assert forall j :: 0 < j < |lines| ==> lines[j] == lines[1..][j - 1];
    }
  }

  lemma WithoutReadable(lines: seq<Line>, id8: string)
    requires AllReadable(lines)
    ensures AllReadable(WithoutBullets(lines, id8))
  {
    WithoutKeepsShape(lines, id8);
    var kept := WithoutBullets(lines, id8);
    forall i | 0 <= i < |kept| ensures Readable(kept[i]) {
      assert kept[i] in lines;
    }
  }

  /** No other listed line carries "(id8)". */
  predicate Unmentioned(v: Vault, id8: string) {
    forall k :: k in v && v[k].active && k != id8 ==> !Contains(v[k].line, Token(id8))
  }

  /** How often an entry is listed, with or without one memory. */
  lemma ListedOnce(v: Vault, id8: string, x: Entry)
    requires Keyed(v)
    ensures Listed(v)[x] == (if x in Entries(v, Active(v)) then 1 else 0)
    ensures x in Entries(v - {id8}, Active(v - {id8})) <==>
            x in Entries(v, Active(v)) && x.1.Bullet? && x.1.id8 != id8
  {
    var w := v - {id8};
    if x in Entries(v, Active(v)) {
      var k :| k in Active(v) && x == EntryOf(v[k]);
      assert k != id8 ==> k in Active(w);
    }
    if x in Entries(w, Active(w)) {
      var k :| k in Active(w) && x == EntryOf(w[k]);
      assert k in Active(v);
    }
  }

  lemma KeptCount(lines: seq<Line>, v: Vault, id8: string, x: Entry)
    requires Keyed(v) && Filed(None, lines) == Listed(v)
    ensures var kept, others := Filed(None, WithoutBullets(lines, id8))[x], Listed(v - {id8})[x];
            && kept <= others && (Unmentioned(v, id8) ==> kept == others)
  {
    WithoutFiled(None, lines, id8, x);
    ListedOnce(v, id8, x);
    ListedOnce(v - {id8}, id8, x);
    if x in Entries(v, Active(v)) {
      var k :| k in Active(v) && x == EntryOf(v[k]);
    }
  }

  lemma MentionedIsDropped(lines: seq<Line>, v: Vault, id8: string, k: string)
    requires Filed(None, lines) == Listed(v)
    requires k in v && v[k].active && k != id8 && Contains(v[k].line, Token(id8))
    ensures EntryOf(v[k]) in Listed(v - {id8}) && EntryOf(v[k]) !in Filed(None, WithoutBullets(lines, id8))
  {
    WithoutFiled(None, lines, id8, EntryOf(v[k]));
    assert k in Active(v - {id8});
  }

  /** Removing an id leaves exactly the other memories listed if and only if no other listed
      line carries "(id8)": such a line goes too. */
  lemma KeptIsListed(lines: seq<Line>, v: Vault, id8: string)
    requires Keyed(v) && Filed(None, lines) == Listed(v)
    ensures Filed(None, WithoutBullets(lines, id8)) <= Listed(v - {id8})
    ensures Filed(None, WithoutBullets(lines, id8)) == Listed(v - {id8}) <==> Unmentioned(v, id8)
  {
    var kept, others := Filed(None, WithoutBullets(lines, id8)), Listed(v - {id8});
    forall x ensures kept[x] <= others[x] && (Unmentioned(v, id8) ==> kept[x] == others[x]) {
      KeptCount(lines, v, id8, x);
    }
    if !Unmentioned(v, id8) {
      var k :| k in v && v[k].active && k != id8 && Contains(v[k].line, Token(id8));
      MentionedIsDropped(lines, v, id8, k);
    }
  }

  // ---------------------------------------------------------------------------
  // Inserting a bullet
  // ---------------------------------------------------------------------------

  lemma {:induction false} UpToParenPast(a: string, b: string)
    requires '(' !in a
    ensures UpToParen(a + b) == a + UpToParen(b)
  {
    if a == "" {
      assert a + b == b;
    } else {
      assert (a + b)[1..] == a[1..] + b;
      UpToParenPast(a[1..], b);
      assert [a[0]] + (a[1..] + UpToParen(b)) == a + UpToParen(b);
    }
  }

  lemma {:induction false} UpToParenWithin(a: string, b: string)
    requires '(' in a
    ensures UpToParen(a + b) == UpToParen(a)
  {
    assert (a + b)[0] == a[0];
    if a[0] != '(' {
      assert (a + b)[1..] == a[1..] + b;
      UpToParenWithin(a[1..], b);
    }
  }

  lemma {:induction false} TrimStartSpaced(s: string)
    ensures TrimStart(s + " ") == if TrimStart(s) == "" then "" else TrimStart(s) + " "
  {
    if s == "" {
      assert s + " " == " " && " "[1..] == "";
    } else {
      assert (s + " ")[1..] == s[1..] + " ";
      if IsSpace(s[0]) {
        TrimStartSpaced(s[1..]);
      }
    }
  }

  lemma StripSpaced(s: string)
    ensures Strip(s + " ") == Strip(s)
  {
    TrimStartSpaced(s);
    var t := TrimStart(s);
    assert (t + " ")[..|t|] == t;
  }

  /** A project goes under a heading that a recount names like it. */
  lemma FitsRenamed(name: string, project: string)
    requires Fits(name, project)
    ensures Renamed(name) == Renamed(project)
  {
    var n := |project|;
    assert name + " (" == project + " (" + (name + " (")[n + 2..];
    assert (name + " (")[n + 1] == '(' && (name + " (")[|name|] == ' ';
    if |name| == n {
      assert name == (name + " (")[..n] == project;
    } else {
      assert name == project + " (" + name[n + 2..];
      assert '(' in project + " (" by {
        assert (project + " (")[n + 1] == '(';
      }
      UpToParenWithin(project + " (", name[n + 2..]);
      RenamedSpaced(project);
    }
  }

  lemma RenamedSpaced(project: string)
    ensures Strip(UpToParen(project + " (")) == Strip(UpToParen(project))
  {
    if '(' in project {
      UpToParenWithin(project, " (");
    } else {
      UpToParenPast(project, " (");
      assert " ("[1..] == "(" && UpToParen("(") == "" && UpToParen(" (") == " ";
      StripSpaced(project);
      UpToParenFacts(project);
    }
  }

  lemma InsertedUnder(kept: seq<Line>, i: nat, b: Line)
    requires i < |kept| && kept[i].Heading? && b.Bullet? && PreambleOk(kept)
    ensures var more := kept[..i + 1] + [b] + kept[i + 1..];
            && Filed(None, more) == Filed(None, kept) + multiset{(Some(kept[i].name), b)}
            && HeadingNames(more) == HeadingNames(kept) && PreambleOk(more)
  {
    var front, back := kept[..i + 1], kept[i + 1..];
    var more := front + [b] + back;
    assert kept == front + back;
    assert more == front + ([b] + back) && ([b] + back)[1..] == back;
    assert front == kept[..i] + [kept[i]];
    HeadingLast(None, kept[..i], kept[i]);
    FiledConcat(None, front, back);
    FiledConcat(None, front, [b] + back);
    NamesConcat(front, back);
    NamesConcat(front, [b] + back);
    forall j | 2 <= j < |more| ensures !more[j].Updated? {
      assert more[j] == if j <= i then kept[j] else if j == i + 1 then b else kept[j - 1];
    }
  }

  lemma NewSection(kept: seq<Line>, project: string, b: Line)
    requires b.Bullet? && PreambleOk(kept)
    ensures var more := kept + Section(project, [b]);
            && Filed(None, more) == Filed(None, kept) + multiset{(Some(project), b)}
            && HeadingNames(more) == HeadingNames(kept) + [project] && PreambleOk(more)
  {
    SectionFacts(LastHeading(None, kept), project, [b]);
    FiledConcat(None, kept, Section(project, [b]));
    NamesConcat(kept, Section(project, [b]));
    assert [b][1..] == [];
  }

  /** The entry under which a recount leaves a new line. */
  function Shown(m: Mem): Entry { (Some(Renamed(m.project)), BulletOf(m)) }

  predicate HasSection(names: seq<string>, project: string) { exists n :: n in names && Fits(n, project) }

  /** The headings once a line of this project is inserted and the recount has renamed them. */
  function NamesWith(names: seq<string>, project: string): seq<string> {
    RenamedAll(names) + if HasSection(names, project) then [] else [Renamed(project)]
  }

  lemma RelabelledPreamble(lines: seq<Line>)
    requires PreambleOk(lines)
    ensures PreambleOk(Relabelled(lines))
  {
  }

  lemma InsertedFiled(kept: seq<Line>, m: Mem)
    requires PreambleOk(kept)
    ensures var more := Inserted(kept, m);
            && Filed(None, Relabelled(more)) == Filed(None, Relabelled(kept)) + multiset{Shown(m)}
            && RenamedAll(HeadingNames(more)) == NamesWith(HeadingNames(kept), m.project)
            && PreambleOk(more)
  {
    var more, r, b := Inserted(kept, m), Relabelled(kept), BulletOf(m);
    RelabelledPreamble(kept);
    match FindHeading(kept, m.project)
    case Some(i) =>
      InsertedUnder(kept, i, b);
      InsertedUnder(r, i, b);
      assert Relabelled(more) == r[..i + 1] + [b] + r[i + 1..];
      FitsRenamed(kept[i].name, m.project);
      NameOfHeading(kept, i);
      assert HasSection(HeadingNames(kept), m.project);
    case None =>
      NewSection(kept, m.project, b);
      NewSection(r, Renamed(m.project), b);
      assert Relabelled(more) == r + Section(Renamed(m.project), [b]);
      if HasSection(HeadingNames(kept), m.project) {
        var n :| n in HeadingNames(kept) && Fits(n, m.project);
        var i := HeadingOfName(kept, n);
        assert false;
      }
  }

  lemma InsertedReadable(kept: seq<Line>, m: Mem)
    requires AllReadable(kept)
    ensures AllReadable(Recounted(Inserted(kept, m))) <==> !BreaksLine(m.line) && !BreaksLine(Renamed(m.project))
  {
    RecountReadable(Inserted(kept, m));
    match FindHeading(kept, m.project)
    case Some(i) =>
      HeadingReadable(kept, i);
      FitsRenamed(kept[i].name, m.project);
      UnderReadable(kept, i, m);
    case None =>
      SectionReadable(kept, m);
  }

  lemma UnderReadable(kept: seq<Line>, i: nat, m: Mem)
    requires AllReadable(kept) && i < |kept|
    ensures ShownReadable(kept[..i + 1] + [BulletOf(m)] + kept[i + 1..]) <==> !BreaksLine(m.line)
  {
    var front, back := kept[..i + 1], kept[i + 1..];
    KeptShownReadable(kept, 0, i + 1);
    KeptShownReadable(kept, i + 1, |kept|);
    assert kept[0..i + 1] == front && kept[i + 1..|kept|] == back;
    BetweenReadable(front, m, back);
  }

  lemma BetweenReadable(front: seq<Line>, m: Mem, back: seq<Line>)
    requires ShownReadable(front) && ShownReadable(back)
    ensures ShownReadable(front + [BulletOf(m)] + back) <==> !BreaksLine(m.line)
  {
    BulletShownReadable(m);
    ShownReadableConcat(front, [BulletOf(m)]);
    ShownReadableConcat(front + [BulletOf(m)], back);
  }

  lemma SectionReadable(kept: seq<Line>, m: Mem)
    requires AllReadable(kept)
    ensures ShownReadable(kept + Section(m.project, [BulletOf(m)])) <==>
            !BreaksLine(m.line) && !BreaksLine(Renamed(m.project))
  {
    KeptShownReadable(kept, 0, |kept|);
    assert kept[0..|kept|] == kept;
    SectionShownReadable(m);
    ShownReadableConcat(kept, Section(m.project, [BulletOf(m)]));
  }

  lemma BulletShownReadable(m: Mem)
    ensures ShownReadable([BulletOf(m)]) <==> !BreaksLine(m.line)
  {
    var b := BulletOf(m);
    assert [b][0] == b;
  }

  lemma SectionShownReadable(m: Mem)
    ensures ShownReadable(Section(m.project, [BulletOf(m)])) <==>
            !BreaksLine(m.line) && !BreaksLine(Renamed(m.project))
  {
    BulletShownReadable(m);
    ShownReadableConcat([Blank, Heading(m.project, 1)], [BulletOf(m)]);
    var top := [Blank, Heading(m.project, 1)];
    assert top[1] == Heading(m.project, 1);
  }

  lemma HeadingReadable(kept: seq<Line>, i: nat)
    requires AllReadable(kept) && i < |kept| && kept[i].Heading?
    ensures !BreaksLine(Renamed(kept[i].name))
  {
    assert Readable(kept[i]);
    RenamedReadable(kept[i].name);
  }

  lemma KeptShownReadable(kept: seq<Line>, lo: nat, hi: nat)
    requires AllReadable(kept) && lo <= hi <= |kept|
    ensures ShownReadable(kept[lo..hi])
  {
    forall i | lo <= i < hi && kept[i].Heading? ensures !BreaksLine(Renamed(kept[i].name)) {
      HeadingReadable(kept, i);
    }
  }

  lemma ShownReadableConcat(a: seq<Line>, b: seq<Line>)
    ensures ShownReadable(a + b) <==> ShownReadable(a) && ShownReadable(b)
  {
    assert forall i :: 0 <= i < |a| ==> (a + b)[i] == a[i];
    assert forall i :: 0 <= i < |b| ==> (a + b)[|a| + i] == b[i];
  }

  // ---------------------------------------------------------------------------
  // The incremental index refines the generated one
  // ---------------------------------------------------------------------------

  /** A save or an update, a deletion, and a deprecation. A save hands the memory to the index
      as it was given; the vault has what its file gives back. */
  datatype Op = Save(given: Card, stem: string, firstLine: string) | Delete(id8: string) | Deprecate(id8: string)

  function Stored(op: Op): Mem
    requires op.Save?
  {
    ViewOf(StoredCard(op.given, op.stem, op.firstLine))
  }

  function Target(op: Op): string { if op.Save? then op.given.id8 else op.id8 }

  function VaultAfter(v: Vault, op: Op): Vault {
    match op
    case Save(given, _, _) => v[given.id8 := Stored(op)]
    case Delete(id) => v - {id}
    case Deprecate(id) => if id in v then v[id := v[id].(active := false)] else v
  }

  function IndexAfter(lines: seq<Line>, op: Op): seq<Line> {
    Recounted(match op
              case Save(given, _, _) => WithLine(lines, ViewOf(given))
              case Delete(id) => WithoutBullets(lines, id)
              case Deprecate(id) => WithoutBullets(lines, id))
  }

  /** The other active memories belong to projects that survive a recount. */
  predicate OthersPlain(v: Vault, id8: string) {
    forall k :: k in v && v[k].active && k != id8 ==> Plain(v[k].project)
  }

  /** What a saved memory has to satisfy: it is active, the index shows it as it is stored, and
      its line and heading hold no line end. */
  predicate Faithful(given: Mem, stored: Mem) {
    stored.active && Shown(given) == EntryOf(stored) && !BreaksLine(given.line) && !BreaksLine(Renamed(given.project))
  }

  /** What an operation has to satisfy for the index with these headings to follow the vault. */
  predicate Followed(names: seq<string>, v: Vault, op: Op) {
    && Unmentioned(v, Target(op)) && OthersPlain(v, Target(op))
    && match op
       case Save(given, _, _) => Faithful(ViewOf(given), Stored(op)) && Distinct(NamesWith(names, ProjectOf(given)))
       case _ => Distinct(RenamedAll(names))
  }

  lemma SameSize<T>(a: multiset<T>, b: multiset<T>)
    requires a <= b && |a| == |b|
    ensures a == b
  {
    assert b == a + (b - a);
  }

  lemma OneMore<T>(a: multiset<T>, b: multiset<T>, x: T, y: T)
    requires a <= b
    ensures a + multiset{x} == b + multiset{y} <==> a == b && x == y
  {
    if a + multiset{x} == b + multiset{y} {
      assert |a + multiset{x}| == |a| + 1 && |b + multiset{y}| == |b| + 1;
      SameSize(a, b);
      assert multiset{x} == a + multiset{x} - a == b + multiset{y} - b == multiset{y};
      assert x in multiset{y};
    }
  }

  lemma ActiveAfterSave(v: Vault, m: Mem)
    ensures var w := v - {m.id8};
            && Active(v[m.id8 := m]) == Active(w) + (if m.active then {m.id8} else {})
            && m.id8 !in Active(w) && Entries(v[m.id8 := m], Active(w)) == Entries(w, Active(w))
  {
  }

  lemma ListedSave(v: Vault, m: Mem)
    requires Keyed(v)
    ensures Listed(v[m.id8 := m]) == Listed(v - {m.id8}) + if m.active then multiset{EntryOf(m)} else multiset{}
  {
    var others := Entries(v - {m.id8}, Active(v - {m.id8}));
    ActiveAfterSave(v, m);
    if m.active {
      forall x ensures x in Entries(v[m.id8 := m], Active(v[m.id8 := m])) <==> x in others || x == EntryOf(m) {
      }
      assert EntryOf(m) !in others;
    }
  }

  lemma ShownIsNew(v: Vault, given: Mem)
    requires Keyed(v)
    ensures Shown(given) !in Listed(v - {given.id8})
  {
  }

  /** What stands in the index after a save, against what should. */
  lemma SavedIsListed(lines: seq<Line>, v: Vault, given: Mem, stored: Mem)
    requires Keyed(v) && Filed(None, lines) == Listed(v) && given.id8 == stored.id8
    ensures Filed(None, WithoutBullets(lines, given.id8)) + multiset{Shown(given)} == Listed(v[stored.id8 := stored])
            <==> Unmentioned(v, given.id8) && stored.active && Shown(given) == EntryOf(stored)
  {
    var kept, others := Filed(None, WithoutBullets(lines, given.id8)), Listed(v - {given.id8});
    KeptIsListed(lines, v, given.id8);
    ListedSave(v, stored);
    if stored.active {
      OneMore(kept, others, Shown(given), EntryOf(stored));
    } else {
      ShownIsNew(v, given);
      assert Shown(given) in kept + multiset{Shown(given)};
    }
  }

  lemma KeptIsPlain(lines: seq<Line>, v: Vault, id8: string)
    requires Keyed(v) && Filed(None, lines) == Listed(v) && OthersPlain(v, id8)
    ensures var kept := WithoutBullets(lines, id8);
            Filed(None, Relabelled(kept)) == Filed(None, kept)
  {
    var kept := WithoutBullets(lines, id8);
    KeptIsListed(lines, v, id8);
    forall x | x in Filed(None, kept) ensures RenamedUnder(x.0) == x.0 {
      assert x in Listed(v - {id8});
    }
    RelabelledFiled(None, kept);
  }

  lemma SaveFollows(lines: seq<Line>, v: Vault, given: Mem, stored: Mem)
    requires Keyed(v) && Indexes(lines, v) && given.id8 == stored.id8 && OthersPlain(v, given.id8)
    ensures Indexes(Recounted(WithLine(lines, given)), v[stored.id8 := stored]) <==>
            Unmentioned(v, given.id8) && Faithful(given, stored)
            && Distinct(NamesWith(HeadingNames(lines), given.project))
  {
    var kept := WithoutBullets(lines, given.id8);
    WithoutKeepsShape(lines, given.id8);
    WithoutKeepsPreamble(lines, given.id8);
    WithoutReadable(lines, given.id8);
    KeptIsPlain(lines, v, given.id8);
    InsertedFiled(kept, given);
    InsertedReadable(kept, given);
    RecountExact(Inserted(kept, given));
    SavedIsListed(lines, v, given, stored);
  }

  lemma RemoveFollows(lines: seq<Line>, v: Vault, id: string)
    requires Keyed(v) && Indexes(lines, v) && OthersPlain(v, id)
    ensures Indexes(Recounted(WithoutBullets(lines, id)), v - {id}) <==>
            Unmentioned(v, id) && Distinct(RenamedAll(HeadingNames(lines)))
  {
    var kept := WithoutBullets(lines, id);
    WithoutKeepsShape(lines, id);
    WithoutKeepsPreamble(lines, id);
    WithoutReadable(lines, id);
    KeptIsPlain(lines, v, id);
    KeptIsListed(lines, v, id);
    RecountExact(kept);
    RecountReadable(kept);
    KeptShownReadable(kept, 0, |kept|);
    assert kept[0..|kept|] == kept;
  }

  lemma DeprecatedIsGone(v: Vault, id: string)
    ensures Listed(VaultAfter(v, Deprecate(id))) == Listed(v - {id})
  {
    var after, w := VaultAfter(v, Deprecate(id)), v - {id};
    assert Active(after) == Active(w);
    assert Entries(after, Active(after)) == Entries(w, Active(w));
  }

  lemma StillKeyed(v: Vault, op: Op)
    requires Keyed(v)
    ensures Keyed(VaultAfter(v, op))
  {
    if op.Save? {
      OwnLine(StoredCard(op.given, op.stem, op.firstLine));
    }
  }

  lemma OtherIsLost(lines: seq<Line>, v: Vault, op: Op)
    requires !OthersPlain(v, Target(op))
    ensures !Indexes(IndexAfter(lines, op), VaultAfter(v, op))
  {
    var k :| k in v && v[k].active && k != Target(op) && !Plain(v[k].project);
    var edited := match op
      case Save(given, _, _) => WithLine(lines, ViewOf(given))
      case Delete(id) => WithoutBullets(lines, id)
      case Deprecate(id) => WithoutBullets(lines, id);
    RelabelledProjectIsLost(edited, VaultAfter(v, op), k);
  }

  /** One operation keeps the index right if and only if no other line names its id, no other
      project and no two headings change under a recount, and a saved memory is active, shown
      as it is stored and free of line ends. */
  lemma StepFollows(lines: seq<Line>, v: Vault, op: Op)
    requires Keyed(v) && Indexes(lines, v)
    ensures Indexes(IndexAfter(lines, op), VaultAfter(v, op)) <==> Followed(HeadingNames(lines), v, op)
    ensures Keyed(VaultAfter(v, op))
  {
    StillKeyed(v, op);
    if !OthersPlain(v, Target(op)) {
      OtherIsLost(lines, v, op);
    } else {
      match op
      case Save(given, _, _) =>
        SaveFollows(lines, v, ViewOf(given), Stored(op));
      case Delete(id) =>
        RemoveFollows(lines, v, id);
      case Deprecate(id) =>
        RemoveFollows(lines, v, id);
        DeprecatedIsGone(v, id);
    }
  }

  predicate AlwaysIndexes(lines: seq<Line>, v: Vault, ops: seq<Op>)
    decreases |ops|
  {
    && Indexes(lines, v)
    && (ops != [] ==> AlwaysIndexes(IndexAfter(lines, ops[0]), VaultAfter(v, ops[0]), ops[1..]))
  }

  /** The headings after an operation. */
  function NamesAfter(names: seq<string>, op: Op): seq<string> {
    if op.Save? then NamesWith(names, ProjectOf(op.given)) else RenamedAll(names)
  }

  predicate AllFollowed(names: seq<string>, v: Vault, ops: seq<Op>)
    decreases |ops|
  {
    ops != [] ==>
      Followed(names, v, ops[0]) && AllFollowed(NamesAfter(names, ops[0]), VaultAfter(v, ops[0]), ops[1..])
  }

  lemma NamesFollow(lines: seq<Line>, op: Op)
    requires PreambleOk(lines)
    ensures HeadingNames(IndexAfter(lines, op)) == NamesAfter(HeadingNames(lines), op)
  {
    WithoutKeepsShape(lines, Target(op));
    WithoutKeepsPreamble(lines, Target(op));
    var kept := WithoutBullets(lines, Target(op));
    if op.Save? {
      InsertedFiled(kept, ViewOf(op.given));
      RecountExact(Inserted(kept, ViewOf(op.given)));
    } else {
      RecountExact(kept);
    }
  }

  /** The incremental index is right throughout a run if and only if every operation of the run
      meets its condition, which the vault and the headings decide. */
  lemma {:induction false} IncrementalRefines(lines: seq<Line>, v: Vault, ops: seq<Op>)
    requires Keyed(v) && Indexes(lines, v)
    ensures AlwaysIndexes(lines, v, ops) <==> AllFollowed(HeadingNames(lines), v, ops)
    decreases |ops|
  {
    if ops != [] {
      StepFollows(lines, v, ops[0]);
      NamesFollow(lines, ops[0]);
      if Followed(HeadingNames(lines), v, ops[0]) {
        IncrementalRefines(IndexAfter(lines, ops[0]), VaultAfter(v, ops[0]), ops[1..]);
      }
    }
  }

  // ---------------------------------------------------------------------------
  // Memories that are and are not shown as they are stored
  // ---------------------------------------------------------------------------

  /** A memory that the sanitiser leaves alone is shown as it is stored if and only if a recount
      leaves its project alone. */
  lemma SafeMemoryIsShown(c: Card, stem: string, firstLine: string)
    requires PrefixLength(c.title).None? && c.title != "" && c.title != stem
    requires c.project != "" && Trimmed(c.project) && !HasUnsafe(c.project)
    requires forall i :: 0 <= i < |c.tags| ==> c.tags[i] != "" && Trimmed(c.tags[i]) && !HasUnsafe(c.tags[i])
    ensures Shown(ViewOf(c)) == EntryOf(ViewOf(StoredCard(c, stem, firstLine))) <==> Plain(c.project)
  {
    SafeTagExactly(c.project);
    forall i | 0 <= i < |c.tags| ensures SafeTag(c.tags[i]) == c.tags[i] {
      SafeTagExactly(c.tags[i]);
    }
    StoredAsWritten(c, stem, firstLine);
  }

  /** A project with a bracket, a comma or a line end is listed under a name it is not stored with. */
  lemma UnsafeProjectIsLost(names: seq<string>, v: Vault, c: Card, stem: string, firstLine: string)
    requires PrefixLength(c.title).None? && c.title != "" && c.title != stem
    requires Plain(c.project) && HasUnsafe(c.project)
    ensures !Followed(names, v, Save(c, stem, firstLine))
  {
    SafeTagExactly(c.project);
    assert ProjectOf(c) == c.project;
    var stored := if SafeTag(c.project) == "" then GENERAL else SafeTag(c.project);
    assert ProjectOf(StoredCard(c, stem, firstLine)) == stored;
    assert !HasUnsafe(stored);
  }

  const COMMA_PROJECT := "a, b"

  lemma CommaProject()
    ensures Plain(COMMA_PROJECT) && HasUnsafe(COMMA_PROJECT)
  {
    PlainMeans(COMMA_PROJECT);
    assert Unsafe(COMMA_PROJECT[1]);
  }

  /** The first memory of the project "a, b" gets a heading under which regeneration does not
      file it. */
  lemma CommaProjectIsLost(c: Card)
    requires c.project == COMMA_PROJECT && c.title == "Use uv"
    ensures var lines, op := [Title, Updated(0), Blank], Save(c, "use-uv-1a2b3c4d", "");
            && Indexes(lines, map[]) && HeadingNames(IndexAfter(lines, op)) == [COMMA_PROJECT]
            && !Indexes(IndexAfter(lines, op), VaultAfter(map[], op))
  {
    var lines, op := [Title, Updated(0), Blank], Save(c, "use-uv-1a2b3c4d", "");
    NothingListed();
    CommaProject();
    UnsafeProjectIsLost([], map[], c, op.stem, op.firstLine);
    StepFollows(lines, map[], op);
    NamesFollow(lines, op);
  }

  lemma NothingListed()
    ensures Indexes([Title, Updated(0), Blank], map[]) && HeadingNames([Title, Updated(0), Blank]) == []
  {
    var lines := [Title, Updated(0), Blank];
    assert lines[1..] == [Updated(0), Blank] && lines[1..][1..] == [Blank] && [Blank][1..] == [];
    assert Filed(None, [Blank]) == multiset{} && HeadingNames([Blank]) == [] && Total([Blank]) == 0;
    assert Active(map[]) == {} && Entries(map[], {}) == {};
  }

  lemma NoBreakConcat(a: string, b: string)
    requires !BreaksLine(a) && !BreaksLine(b)
    ensures !BreaksLine(a + b)
  {
  }

  /** A memory whose title cites the id of another one in parentheses drops out of the index when
      the other one is deleted. */
  lemma CitingTitleIsLost(lines: seq<Line>, v: Vault, id8: string, c: Card)
    requires Keyed(v) && Indexes(lines, v) && c.id8 != id8 && c.active && c.id8 in v && v[c.id8] == ViewOf(c)
    requires PlainTitle(c) && Contains(c.title, Token(id8))
    ensures !Indexes(IndexAfter(lines, Delete(id8)), VaultAfter(v, Delete(id8)))
  {
    TitleInLine(c, Token(id8));
    assert !Unmentioned(v, id8);
    StepFollows(lines, v, Delete(id8));
  }

  /** A memory without tags whose line is read back as one line. */
  predicate Simple(c: Card) {
    c.active && c.tags == [] && PlainTitle(c) && !BreaksLine(c.title) && !BreaksLine(c.id8) && c.project == GENERAL
  }

  lemma SimpleView(c: Card)
    requires Simple(c)
    ensures ViewOf(c) == Mem(c.id8, GENERAL, "- " + c.title + " " + Token(c.id8), c.created, true)
    ensures Contains(ViewOf(c).line, Token(c.id8)) && !BreaksLine(ViewOf(c).line)
  {
    PlainTitleShown(c);
    OwnLine(c);
    assert LineOf(c) == "- " + c.title + " " + Token(c.id8);
    NoBreakConcat("- ", c.title);
    NoBreakConcat("- " + c.title, " ");
    NoBreakConcat("(", c.id8);
    NoBreakConcat("(" + c.id8, ")");
    NoBreakConcat("- " + c.title + " ", Token(c.id8));
  }

  lemma TwoFiled(project: string, a: Line, b: Line)
    requires a.Bullet? && b.Bullet?
    ensures Filed(Some(project), [a, b]) == multiset{(Some(project), a), (Some(project), b)}
  {
    assert [a, b][1..] == [b] && [b][1..] == [];
    assert Filed(Some(project), [b]) == multiset{(Some(project), b)};
  }

  /** The index of two memories of one project. */
  predicate IsPair(lines: seq<Line>, v: Vault, a: Mem, b: Mem) {
    && v == map[a.id8 := a, b.id8 := b]
    && lines == [Title, Updated(2)] + Section(a.project, [BulletOf(a), BulletOf(b)])
  }

  lemma PairListed(lines: seq<Line>, v: Vault, a: Mem, b: Mem)
    requires IsPair(lines, v, a, b)
    requires a.id8 != b.id8 && a.active && b.active && a.project == b.project
    requires Contains(a.line, Token(a.id8)) && Contains(b.line, Token(b.id8))
    requires !BreaksLine(a.line) && !BreaksLine(b.line) && !BreaksLine(a.project)
    ensures Keyed(v) && Indexes(lines, v)
  {
    EmptyIndex(2);
    SectionAdded([Title, Updated(2)], a.project, [BulletOf(a), BulletOf(b)]);
    TwoFiled(a.project, BulletOf(a), BulletOf(b));
    PairEntries(v, a, b);
    FiledSize(None, lines);
  }

  lemma PairEntries(v: Vault, a: Mem, b: Mem)
    requires v == map[a.id8 := a, b.id8 := b] && a.id8 != b.id8 && a.active && b.active
    ensures Entries(v, Active(v)) == {EntryOf(a), EntryOf(b)}
  {
    assert Active(v) == {a.id8, b.id8};
  }

  lemma CitingTitleBreaks(id8: string, title: string)
    requires !BreaksLine(id8) && title == "see " + Token(id8)
    ensures !BreaksLine(title) && Contains(title, Token(id8))
  {
    NoBreakConcat("(", id8);
    NoBreakConcat("(" + id8, ")");
    NoBreakConcat("see ", Token(id8));
    ContainsAt("see ", Token(id8), "");
    assert "see " + Token(id8) + "" == title;
  }

  lemma CitingTitle(id8: string, c: Card)
    requires |id8| == 8 && !BreaksLine(id8) && c.title == "see " + Token(id8)
    ensures PlainTitle(c) && Contains(c.title, Token(id8)) && !BreaksLine(c.title)
  {
    CitingTitleBreaks(id8, c.title);
    assert c.title[0] == 's' && c.title[|c.title| - 1] == ')';
    forall i | 0 <= i < |c.title| ensures c.title[i] != '\n' {
      assert !IsLineEnd(c.title[i]);
    }
  }

  /** A second memory, titled "see (id)" with the id of the first. */
  predicate Cites(b: Card, a: Card) {
    && Simple(a) && |a.id8| == 8 && b.id8 != a.id8
    && b.active && b.tags == [] && b.project == GENERAL && !BreaksLine(b.id8) && b.title == "see " + Token(a.id8)
  }

  lemma CitingFits(a: Card, b: Card)
    requires Cites(b, a)
    ensures Simple(b) && Contains(b.title, Token(a.id8))
  {
    CitingTitle(a.id8, b);
  }

  lemma SimplePairListed(lines: seq<Line>, v: Vault, a: Card, b: Card)
    requires IsPair(lines, v, ViewOf(a), ViewOf(b)) && Simple(a) && Simple(b) && b.id8 != a.id8
    ensures Keyed(v) && Indexes(lines, v) && b.id8 in v && v[b.id8] == ViewOf(b)
  {
    SimpleView(a);
    SimpleView(b);
    PairListed(lines, v, ViewOf(a), ViewOf(b));
  }

  /** Deleting the first of two such memories takes the line of the second out of a right index. */
  lemma CitingMemoryIsLost(lines: seq<Line>, v: Vault, a: Card, b: Card)
    requires IsPair(lines, v, ViewOf(a), ViewOf(b)) && Cites(b, a)
    ensures Indexes(lines, v) && !Indexes(IndexAfter(lines, Delete(a.id8)), VaultAfter(v, Delete(a.id8)))
  {
    CitingFits(a, b);
    SimplePairListed(lines, v, a, b);
    CitingTitleIsLost(lines, v, a.id8, b);
  }
}
