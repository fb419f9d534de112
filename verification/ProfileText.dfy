/** The text form of a profile: `_parse_profile` and `_render_profile` of
    memem/profiles.py, over the characters Python splits and strips at. */
module ProfileText {
  import opened PyStrings
  import opened Wrappers

  // ---------------------------------------------------------------------------
  // Lines
  // ---------------------------------------------------------------------------

  function LineEnd(s: string): (n: nat)
    ensures n <= |s| && OneLine(s[..n]) && (n < |s| ==> IsLineBreak(s[n]))
  {
    if s == "" || IsLineBreak(s[0]) then 0 else 1 + LineEnd(s[1..])
  }

  function SplitLines(s: string): seq<string> {
    if s == "" then []
    else
      var n := LineEnd(s);
      if n == |s| then [s]
      else if s[n] == '\r' && n + 1 < |s| && s[n + 1] == '\n' then [s[..n]] + SplitLines(s[n + 2..])
      else [s[..n]] + SplitLines(s[n + 1..])
  }

  function Join(lines: seq<string>): string {
    if lines == [] then "" else if |lines| == 1 then lines[0] else lines[0] + "\n" + Join(lines[1..])
  }

  // ---------------------------------------------------------------------------
  // Profiles
  // ---------------------------------------------------------------------------

  /** A profile's title line and section names, with the case folding used to match them. */
  datatype Schema = Schema(title: string, names: seq<string>, lower: string -> string)

  predicate WellFormed(sc: Schema) {
    && sc.names != [] && OneLine(sc.title)
    && (forall i :: 0 <= i < |sc.names| ==> sc.names[i] != "" && Trimmed(sc.names[i]) && OneLine(sc.names[i]))
    && (forall i, j :: 0 <= i < j < |sc.names| ==> sc.lower(sc.names[i]) != sc.lower(sc.names[j]))
  }

  const USER_SECTIONS := ["Preferences", "Conventions", "Environment"]
  const PROJECT_SECTIONS := ["Identity", "Stack & Structure", "Conventions"]

  /** The lower case of ASCII letters. */
  function Lower(s: string): string {
    seq(|s|, i requires 0 <= i < |s| => if 'A' <= s[i] <= 'Z' then (s[i] as int + 32) as char else s[i])
  }

  lemma PrintableName(n: string)
    requires n != "" && n[0] != ' ' && n[|n| - 1] != ' ' && forall i :: 0 <= i < |n| ==> ' ' <= n[i] <= '~'
    ensures n != "" && Trimmed(n) && OneLine(n)
  {
  }

  lemma UserSchemaWellFormed(title: string)
    requires OneLine(title)
    ensures WellFormed(Schema(title, USER_SECTIONS, Lower))
  {
    PrintableName("Preferences");
    PrintableName("Conventions");
    PrintableName("Environment");
    assert Lower("Preferences")[0] == 'p' && Lower("Conventions")[0] == 'c' && Lower("Environment")[0] == 'e';
  }

  lemma ProjectSchemaWellFormed(title: string)
    requires OneLine(title)
    ensures WellFormed(Schema(title, PROJECT_SECTIONS, Lower))
  {
    PrintableName("Identity");
    PrintableName("Stack & Structure");
    PrintableName("Conventions");
    assert Lower("Identity")[0] == 'i' && Lower("Stack & Structure")[0] == 's' && Lower("Conventions")[0] == 'c';
  }

  function Canonical(sc: Schema, names: seq<string>, heading: string): Option<string> {
    if names == [] then None
    else if sc.lower(names[0]) == sc.lower(heading) then Some(names[0])
    else Canonical(sc, names[1..], heading)
  }

  type Sections = map<string, seq<string>>

  function Bullets(secs: Sections, name: string): seq<string> {
    if name in secs then secs[name] else []
  }

  function NoBullets(sc: Schema): Sections { map n | n in sc.names :: [] }

  datatype Reading = Reading(current: Option<string>, secs: Sections)

  function ReadLine(sc: Schema, r: Reading, line: string): Reading {
    if "## " <= line then r.(current := Canonical(sc, sc.names, Strip(line[3..])))
    else if r.current.Some? && "- " <= line then
      var n := r.current.value;
      r.(secs := r.secs[n := Bullets(r.secs, n) + [Strip(line[2..])]])
    else r
  }

  function ReadLines(sc: Schema, r: Reading, lines: seq<string>): Reading {
    if lines == [] then r else ReadLine(sc, ReadLines(sc, r, lines[..|lines| - 1]), lines[|lines| - 1])
  }

  function Parse(sc: Schema, raw: string): Sections {
    ReadLines(sc, Reading(None, NoBullets(sc)), SplitLines(raw)).secs
  }

  function BulletLines(bullets: seq<string>): (r: seq<string>)
    ensures |r| == |bullets|
  {
    seq(|bullets|, i requires 0 <= i < |bullets| => "- " + bullets[i])
  }

  function Section(name: string, bullets: seq<string>): seq<string> {
    ["## " + name] + BulletLines(bullets)
  }

  function SectionLines(secs: Sections, names: seq<string>): seq<string> {
    if names == [] then []
    else
      var name := names[|names| - 1];
      SectionLines(secs, names[..|names| - 1]) + (Section(name, Bullets(secs, name)) + [""])
  }

  function TitleLines(sc: Schema): seq<string> { ["# " + sc.title, ""] }

  function RenderLines(sc: Schema, secs: Sections): seq<string> {
    TitleLines(sc) + SectionLines(secs, sc.names)
  }

  function Render(sc: Schema, secs: Sections): string {
    TrimEnd(Join(RenderLines(sc, secs))) + "\n"
  }

  method ParseProfile(sc: Schema, raw: string) returns (result: Sections)
    ensures result == Parse(sc, raw)
  {
    result := NoBullets(sc);
    var current: Option<string> := None;
    var lines := SplitLines(raw);
    for i := 0 to |lines|
      invariant Reading(current, result) == ReadLines(sc, Reading(None, NoBullets(sc)), lines[..i])
    {
      var line := lines[i];
      assert lines[..i + 1][..i] == lines[..i];
      if "## " <= line {
        current := Canonical(sc, sc.names, Strip(line[3..]));
      } else if current.Some? && "- " <= line {
        result := result[current.value := Bullets(result, current.value) + [Strip(line[2..])]];
      }
    }
    assert lines[..|lines|] == lines;
  }

  method RenderProfile(sc: Schema, secs: Sections) returns (text: string)
    ensures text == Render(sc, secs)
  {
    var lines := ["# " + sc.title, ""];
    for i := 0 to |sc.names|
      invariant lines == TitleLines(sc) + SectionLines(secs, sc.names[..i])
    {
      ghost var before := lines;
      lines := lines + ["## " + sc.names[i]];
      var bullets := Bullets(secs, sc.names[i]);
      for j := 0 to |bullets|
        invariant lines == before + (["## " + sc.names[i]] + BulletLines(bullets[..j]))
      {
        lines := lines + ["- " + bullets[j]];
        assert bullets[..j + 1] == bullets[..j] + [bullets[j]];
        BulletLinesSnoc(bullets[..j], bullets[j]);
      }
      assert bullets[..|bullets|] == bullets;
      lines := lines + [""];
      assert sc.names[..i + 1][..i] == sc.names[..i];
      Assoc(TitleLines(sc), SectionLines(secs, sc.names[..i]), Section(sc.names[i], bullets) + [""]);
      Assoc(before, Section(sc.names[i], bullets), [""]);
    }
    assert sc.names[..|sc.names|] == sc.names;
    text := TrimEnd(Join(lines)) + "\n";
  }

  lemma Assoc<T>(a: seq<T>, b: seq<T>, c: seq<T>)
    ensures (a + b) + c == a + (b + c)
  {
  }

  lemma BulletLinesSnoc(bullets: seq<string>, b: string)
    ensures BulletLines(bullets + [b]) == BulletLines(bullets) + ["- " + b]
  {
  }

  // ---------------------------------------------------------------------------
  // Splitting and joining
  // ---------------------------------------------------------------------------

  function Unlines(lines: seq<string>): string {
    if lines == [] then "" else lines[0] + "\n" + Unlines(lines[1..])
  }

  lemma {:induction false} SplitUnlines(lines: seq<string>)
    requires forall i :: 0 <= i < |lines| ==> OneLine(lines[i])
    ensures SplitLines(Unlines(lines)) == lines
  {
    if lines != [] {
      var s := Unlines(lines);
      LineEndAt(lines[0], "\n" + Unlines(lines[1..]));
      assert s == lines[0] + ("\n" + Unlines(lines[1..]));
      assert s[|lines[0]| + 1..] == Unlines(lines[1..]);
      SplitUnlines(lines[1..]);
    }
  }

  lemma {:induction false} LineEndAt(a: string, b: string)
    requires OneLine(a) && b != "" && IsLineBreak(b[0])
    ensures LineEnd(a + b) == |a|
  {
    if a == "" {
      assert a + b == b;
    } else {
      assert (a + b)[1..] == a[1..] + b;
      LineEndAt(a[1..], b);
    }
  }

  lemma {:induction false} JoinUnlines(lines: seq<string>)
    requires lines != []
    ensures Join(lines) + "\n" == Unlines(lines)
    ensures Join(lines + [""]) == Unlines(lines)
  {
    if |lines| == 1 {
      assert Unlines(lines[1..]) == "";
      assert (lines + [""])[1..] == [""];
    } else {
      JoinUnlines(lines[1..]);
      assert (lines + [""])[1..] == lines[1..] + [""];
    }
  }

  lemma {:induction false} JoinLast(lines: seq<string>)
    requires lines != [] && lines[|lines| - 1] != ""
    ensures var j, l := Join(lines), lines[|lines| - 1]; |j| >= |l| && j[|j| - |l|..] == l
  {
    if |lines| > 1 {
      JoinLast(lines[1..]);
    }
  }

  /** A blank last line only makes the text end in one line feed. */
  lemma RenderOfBody(body: seq<string>)
    requires body != [] && body[|body| - 1] != "" && !IsSpace(body[|body| - 1][|body[|body| - 1]| - 1])
    ensures TrimEnd(Join(body + [""])) + "\n" == Unlines(body)
  {
    JoinUnlines(body);
    JoinLast(body);
    var j := Join(body);
    assert Join(body + [""]) == j + "\n";
    assert (j + "\n")[..|j|] == j;
  }

  // ---------------------------------------------------------------------------
  // Reading back what was rendered
  // ---------------------------------------------------------------------------

  predicate Clean(b: string) { Trimmed(b) && OneLine(b) }

  predicate AllClean(secs: Sections, names: seq<string>) {
    forall i, j :: 0 <= i < |names| && 0 <= j < |Bullets(secs, names[i])| ==> Clean(Bullets(secs, names[i])[j])
  }

  lemma {:induction false} ReadConcat(sc: Schema, r: Reading, a: seq<string>, b: seq<string>)
    ensures ReadLines(sc, r, a + b) == ReadLines(sc, ReadLines(sc, r, a), b)
    decreases |b|
  {
    if b == [] {
      assert a + b == a;
    } else {
      assert (a + b)[..|a + b| - 1] == a + b[..|b| - 1];
      ReadConcat(sc, r, a, b[..|b| - 1]);
    }
  }

  lemma {:induction false} CanonicalName(sc: Schema, names: seq<string>, i: nat)
    requires i < |names|
    requires forall j, k :: 0 <= j < k < |names| ==> sc.lower(names[j]) != sc.lower(names[k])
    ensures Canonical(sc, names, names[i]) == Some(names[i])
  {
    if i > 0 {
      CanonicalName(sc, names[1..], i - 1);
    }
  }

  lemma ReadHeading(sc: Schema, r: Reading, i: nat)
    requires WellFormed(sc) && i < |sc.names|
    ensures ReadLines(sc, r, ["## " + sc.names[i]]) == r.(current := Some(sc.names[i]))
  {
    var line := "## " + sc.names[i];
    assert line[3..] == sc.names[i];
    StripFacts(sc.names[i]);
    CanonicalName(sc, sc.names, i);
    assert [line][..0] == [];
  }

  lemma {:induction false} ReadBullets(sc: Schema, r: Reading, bullets: seq<string>)
    requires r.current.Some?
    requires forall j :: 0 <= j < |bullets| ==> Clean(bullets[j])
    ensures var n := r.current.value;
            ReadLines(sc, r, BulletLines(bullets)) ==
              if bullets == [] then r else r.(secs := r.secs[n := Bullets(r.secs, n) + bullets])
    decreases |bullets|
  {
    if bullets != [] {
      var rest, last := bullets[..|bullets| - 1], bullets[|bullets| - 1];
      ReadBullets(sc, r, rest);
      assert BulletLines(bullets)[..|bullets| - 1] == BulletLines(rest);
      ReadBullet(sc, ReadLines(sc, r, BulletLines(rest)), last);
      assert rest + [last] == bullets;
      BulletsAgain(r.secs, r.current.value, rest, last);
    }
  }

  lemma BulletsAgain(secs: Sections, n: string, front: seq<string>, last: string)
    ensures var once := secs[n := Bullets(secs, n) + front];
            once[n := Bullets(once, n) + [last]] == secs[n := Bullets(secs, n) + (front + [last])]
  {
    Assoc(Bullets(secs, n), front, [last]);
  }

  lemma ReadBullet(sc: Schema, r: Reading, bullet: string)
    requires r.current.Some? && Clean(bullet)
    ensures var n := r.current.value;
            ReadLine(sc, r, "- " + bullet) == r.(secs := r.secs[n := Bullets(r.secs, n) + [bullet]])
  {
    var line := "- " + bullet;
    assert line[2..] == bullet && line[0] == '-';
    StripFacts(bullet);
  }

  /** The sections after reading the first k sections of a rendered profile. */
  function ReadSoFar(sc: Schema, secs: Sections, k: nat): Sections
    requires k <= |sc.names|
  {
    map n | n in sc.names :: if n in sc.names[..k] then Bullets(secs, n) else []
  }

  lemma NameIsNew(sc: Schema, k: nat)
    requires WellFormed(sc) && k < |sc.names|
    ensures sc.names[k] !in sc.names[..k]
  {
    forall j | 0 <= j < k ensures sc.names[j] != sc.names[k] {
      assert sc.lower(sc.names[j]) != sc.lower(sc.names[k]);
    }
  }

  lemma ReadBlank(sc: Schema, r: Reading, lines: seq<string>)
    ensures ReadLines(sc, r, lines + [""]) == ReadLines(sc, r, lines)
  {
    assert (lines + [""])[..|lines|] == lines;
  }

  lemma ReadSection(sc: Schema, secs: Sections, k: nat, r: Reading, bullets: seq<string>)
    requires WellFormed(sc) && k < |sc.names|
    requires forall j :: 0 <= j < |bullets| ==> Clean(bullets[j])
    requires r.secs == ReadSoFar(sc, secs, k)
    ensures ReadLines(sc, r, Section(sc.names[k], bullets))
         == Reading(Some(sc.names[k]), r.secs[sc.names[k] := bullets])
  {
    var n := sc.names[k];
    ReadConcat(sc, r, ["## " + n], BulletLines(bullets));
    ReadHeading(sc, r, k);
    ReadBullets(sc, r.(current := Some(n)), bullets);
    NameIsNew(sc, k);
    assert Bullets(r.secs, n) == [];
    assert Bullets(r.secs, n) + bullets == bullets;
    assert r.secs[n := []] == r.secs;
  }

  lemma ReadSectionFrom(sc: Schema, secs: Sections, k: nat, r: Reading)
    requires WellFormed(sc) && 0 < k <= |sc.names| && AllClean(secs, sc.names)
    requires r.secs == ReadSoFar(sc, secs, k - 1)
    ensures var n := sc.names[k - 1];
            ReadLines(sc, r, Section(n, Bullets(secs, n)) + [""]).secs == ReadSoFar(sc, secs, k)
  {
    var n := sc.names[k - 1];
    ReadBlank(sc, r, Section(n, Bullets(secs, n)));
    CleanSection(secs, sc.names, k - 1);
    ReadSection(sc, secs, k - 1, r, Bullets(secs, n));
    OneMoreSection(sc, secs, k);
  }

  lemma {:induction false} ReadSections(sc: Schema, secs: Sections, k: nat, r: Reading)
    requires WellFormed(sc) && k <= |sc.names| && AllClean(secs, sc.names)
    requires r.secs == NoBullets(sc)
    ensures ReadLines(sc, r, SectionLines(secs, sc.names[..k])).secs == ReadSoFar(sc, secs, k)
    decreases k
  {
    if k == 0 {
      assert ReadSoFar(sc, secs, 0) == NoBullets(sc);
    } else {
      assert sc.names[..k][..k - 1] == sc.names[..k - 1];
      ReadSections(sc, secs, k - 1, r);
      var n, before := sc.names[k - 1], SectionLines(secs, sc.names[..k - 1]);
      ReadConcat(sc, r, before, Section(n, Bullets(secs, n)) + [""]);
      ReadSectionFrom(sc, secs, k, ReadLines(sc, r, before));
    }
  }

  lemma OneMoreSection(sc: Schema, secs: Sections, k: nat)
    requires 0 < k <= |sc.names|
    ensures ReadSoFar(sc, secs, k - 1)[sc.names[k - 1] := Bullets(secs, sc.names[k - 1])] == ReadSoFar(sc, secs, k)
  {
    assert sc.names[..k] == sc.names[..k - 1] + [sc.names[k - 1]];
  }

  lemma CleanSection(secs: Sections, names: seq<string>, i: nat)
    requires AllClean(secs, names) && i < |names|
    ensures forall j :: 0 <= j < |Bullets(secs, names[i])| ==> Clean(Bullets(secs, names[i])[j])
  {
  }

  /** What is written of a section whose last bullet is empty and which ends the text. */
  predicate EndsInEmptyBullet(sc: Schema, secs: Sections) {
    sc.names != [] &&
    var last := Bullets(secs, sc.names[|sc.names| - 1]);
    last != [] && last[|last| - 1] == ""
  }

  /** The lines of a rendered profile before the bullets of its last section. */
  function Front(sc: Schema, secs: Sections): seq<string>
    requires sc.names != []
  {
    TitleLines(sc) + SectionLines(secs, sc.names[..|sc.names| - 1]) + ["## " + sc.names[|sc.names| - 1]]
  }

  lemma RenderLinesParts(sc: Schema, secs: Sections)
    requires sc.names != []
    ensures RenderLines(sc, secs)
         == Front(sc, secs) + BulletLines(Bullets(secs, sc.names[|sc.names| - 1])) + [""]
  {
    var n := sc.names[|sc.names| - 1];
    var title, front := TitleLines(sc), SectionLines(secs, sc.names[..|sc.names| - 1]);
    var bullets := BulletLines(Bullets(secs, n));
    Assoc(title, front, Section(n, Bullets(secs, n)) + [""]);
    Assoc(title + front, ["## " + n] + bullets, [""]);
    Assoc(title + front, ["## " + n], bullets);
  }

  predicate AllOneLine(lines: seq<string>) { forall i :: 0 <= i < |lines| ==> OneLine(lines[i]) }

  lemma BulletsOneLine(bullets: seq<string>)
    requires forall j :: 0 <= j < |bullets| ==> Clean(bullets[j])
    ensures AllOneLine(BulletLines(bullets))
  {
  }

  lemma {:induction false} SectionLinesOneLine(secs: Sections, names: seq<string>)
    requires AllClean(secs, names)
    requires forall i :: 0 <= i < |names| ==> OneLine(names[i])
    ensures AllOneLine(SectionLines(secs, names))
  {
    if names != [] {
      var n := names[|names| - 1];
      SectionLinesOneLine(secs, names[..|names| - 1]);
      CleanSection(secs, names, |names| - 1);
      BulletsOneLine(Bullets(secs, n));
      assert AllOneLine(Section(n, Bullets(secs, n)) + [""]);
    }
  }

  lemma FrontOneLine(sc: Schema, secs: Sections)
    requires WellFormed(sc) && AllClean(secs, sc.names)
    ensures AllOneLine(Front(sc, secs))
  {
    SectionLinesOneLine(secs, sc.names[..|sc.names| - 1]);
    assert AllOneLine(TitleLines(sc));
  }

  lemma ReadTitle(sc: Schema)
    ensures ReadLines(sc, Reading(None, NoBullets(sc)), TitleLines(sc)) == Reading(None, NoBullets(sc))
  {
    var line := "# " + sc.title;
    assert line[1] == ' ' && "## "[1] == '#';
    assert !("## " <= line);
    var none: seq<string> := [];
    assert [line][..0] == none;
    ReadBlank(sc, Reading(None, NoBullets(sc)), [line]);
    assert TitleLines(sc) == [line] + [""];
  }

  function Schematic(sc: Schema, secs: Sections): Sections {
    map n | n in sc.names :: Bullets(secs, n)
  }

  lemma LastSection(sc: Schema, secs: Sections, bullets: seq<string>)
    requires sc.names != []
    ensures var k := |sc.names| - 1;
            ReadSoFar(sc, secs, k)[sc.names[k] := bullets] == Schematic(sc, secs)[sc.names[k] := bullets]
  {
    var k := |sc.names| - 1;
    assert sc.names == sc.names[..k] + [sc.names[k]];
  }

  /** Reading a rendered profile whose last section holds `bullets`. */
  lemma ReadFront(sc: Schema, secs: Sections, bullets: seq<string>)
    requires WellFormed(sc) && AllClean(secs, sc.names)
    requires forall j :: 0 <= j < |bullets| ==> Clean(bullets[j])
    ensures ReadLines(sc, Reading(None, NoBullets(sc)), Front(sc, secs) + BulletLines(bullets)).secs
         == Schematic(sc, secs)[sc.names[|sc.names| - 1] := bullets]
  {
    var k, n := |sc.names| - 1, sc.names[|sc.names| - 1];
    var start := Reading(None, NoBullets(sc));
    var title, front := TitleLines(sc), SectionLines(secs, sc.names[..k]);
    Assoc(title + front, ["## " + n], BulletLines(bullets));
    ReadConcat(sc, start, title + front, Section(n, bullets));
    ReadConcat(sc, start, title, front);
    ReadTitle(sc);
    ReadSections(sc, secs, k, start);
    ReadSection(sc, secs, k, ReadLines(sc, start, title + front), bullets);
    LastSection(sc, secs, bullets);
  }

  lemma LastLineSolid(front: seq<string>, bullets: seq<string>, name: string)
    requires front != [] && front[|front| - 1] == "## " + name && name != "" && Trimmed(name)
    requires bullets != [] ==> bullets[|bullets| - 1] != "" && Trimmed(bullets[|bullets| - 1])
    ensures var body := front + BulletLines(bullets);
            body[|body| - 1] != "" && !IsSpace(body[|body| - 1][|body[|body| - 1]| - 1])
  {
    var body := front + BulletLines(bullets);
    assert body[|body| - 1] == if bullets == [] then "## " + name else "- " + bullets[|bullets| - 1];
  }

  lemma BodyOneLine(sc: Schema, secs: Sections, bullets: seq<string>)
    requires WellFormed(sc) && AllClean(secs, sc.names)
    requires forall j :: 0 <= j < |bullets| ==> Clean(bullets[j])
    ensures AllOneLine(Front(sc, secs) + BulletLines(bullets))
  {
    FrontOneLine(sc, secs);
    BulletsOneLine(bullets);
  }

  /** Splitting the rendered text gives back its lines, but for the blank one at the end. */
  lemma RenderedLines(sc: Schema, secs: Sections, bullets: seq<string>)
    requires WellFormed(sc) && AllClean(secs, sc.names)
    requires bullets == Bullets(secs, sc.names[|sc.names| - 1])
    requires bullets != [] ==> bullets[|bullets| - 1] != ""
    requires forall j :: 0 <= j < |bullets| ==> Clean(bullets[j])
    ensures SplitLines(Render(sc, secs)) == Front(sc, secs) + BulletLines(bullets)
  {
    var body := Front(sc, secs) + BulletLines(bullets);
    assert Render(sc, secs) == TrimEnd(Join(body + [""])) + "\n" by {
      RenderLinesParts(sc, secs);
    }
    LastLineSolid(Front(sc, secs), bullets, sc.names[|sc.names| - 1]);
    RenderOfBody(body);
    BodyOneLine(sc, secs, bullets);
    SplitUnlines(body);
  }

  lemma RoundTripClean(sc: Schema, secs: Sections)
    requires WellFormed(sc) && AllClean(secs, sc.names) && !EndsInEmptyBullet(sc, secs)
    ensures Parse(sc, Render(sc, secs)) == Schematic(sc, secs)
  {
    var n := sc.names[|sc.names| - 1];
    var bullets := Bullets(secs, n);
    CleanSection(secs, sc.names, |sc.names| - 1);
    RenderedLines(sc, secs, bullets);
    ParseLines(sc, Render(sc, secs), Front(sc, secs) + BulletLines(bullets));
    ReadFront(sc, secs, bullets);
    SchematicHas(sc, secs, n);
  }

  lemma SchematicHas(sc: Schema, secs: Sections, n: string)
    requires n in sc.names
    ensures Schematic(sc, secs)[n := Bullets(secs, n)] == Schematic(sc, secs)
  {
  }

  lemma ParseLines(sc: Schema, raw: string, lines: seq<string>)
    requires SplitLines(raw) == lines
    ensures Parse(sc, raw) == ReadLines(sc, Reading(None, NoBullets(sc)), lines).secs
  {
  }

  /** A final empty bullet is trimmed away with the end of the text. */
  lemma {:induction false} FinalEmptyBulletLost(sc: Schema, secs: Sections)
    requires WellFormed(sc) && AllClean(secs, sc.names) && EndsInEmptyBullet(sc, secs)
    ensures var n := sc.names[|sc.names| - 1];
            Parse(sc, Render(sc, secs)) ==
              Schematic(sc, secs)[n := Bullets(secs, n)[..|Bullets(secs, n)| - 1]]
  {
    var k := |sc.names| - 1;
    var bullets := Bullets(secs, sc.names[k]);
    var kept := bullets[..|bullets| - 1];
    assert bullets == kept + [""];
    BulletLinesSnoc(kept, "");
    assert "- " + "" == "- ";
    RenderLinesParts(sc, secs);
    var lines := Front(sc, secs) + BulletLines(kept);
    Assoc(Front(sc, secs), BulletLines(kept), ["- "]);
    TrimDashSpace(lines);
    CleanSection(secs, sc.names, k);
    BodyOneLine(sc, secs, kept);
    SplitUnlines(lines + ["-"]);
    assert (lines + ["-"])[..|lines|] == lines;
    ReadFront(sc, secs, kept);
  }

  lemma TrimDashSpace(front: seq<string>)
    ensures TrimEnd(Join(front + ["- "] + [""])) + "\n" == Unlines(front + ["-"])
  {
    JoinUnlines(front + ["- "]);
    UnlinesSnoc(front, "- ");
    UnlinesSnoc(front, "-");
    TrimDash(Unlines(front));
    Assoc(Unlines(front), "- ", "\n");
  }

  lemma UnlinesSnoc(front: seq<string>, line: string)
    ensures Unlines(front + [line]) == Unlines(front) + (line + "\n")
  {
    UnlinesConcat(front, [line]);
    assert [line][1..] == [];
    assert Unlines([line]) == line + "\n" + "";
  }

  lemma TrimDash(u: string)
    ensures TrimEnd(u + "- ") == u + "-"
  {
    assert (u + "- ")[..|u| + 1] == u + "-";
    assert (u + "-")[|u|] == '-';
  }

  lemma {:induction false} UnlinesConcat(a: seq<string>, b: seq<string>)
    ensures Unlines(a + b) == Unlines(a) + Unlines(b)
  {
    if a == [] {
      assert a + b == b;
    } else {
      assert (a + b)[1..] == a[1..] + b;
      UnlinesConcat(a[1..], b);
    }
  }

  // ---------------------------------------------------------------------------
  // Everything parsed is clean, whatever the text
  // ---------------------------------------------------------------------------

  lemma {:induction false} SplitOneLine(s: string)
    ensures forall i :: 0 <= i < |SplitLines(s)| ==> OneLine(SplitLines(s)[i])
    decreases |s|
  {
    if s != "" {
      var n := LineEnd(s);
      assert n == |s| ==> s[..n] == s;
      if n < |s| {
        if s[n] == '\r' && n + 1 < |s| && s[n + 1] == '\n' {
          SplitOneLine(s[n + 2..]);
        } else {
          SplitOneLine(s[n + 1..]);
        }
      }
    }
  }

  predicate ReadingClean(r: Reading) {
    forall n, j :: n in r.secs && 0 <= j < |r.secs[n]| ==> Clean(r.secs[n][j])
  }

  lemma {:induction false} CanonicalIsName(sc: Schema, names: seq<string>, heading: string)
    ensures Canonical(sc, names, heading).Some? ==> Canonical(sc, names, heading).value in names
  {
    if names != [] {
      CanonicalIsName(sc, names[1..], heading);
    }
  }

  lemma {:induction false} ReadKeepsClean(sc: Schema, lines: seq<string>)
    requires forall i :: 0 <= i < |lines| ==> OneLine(lines[i])
    ensures var r := ReadLines(sc, Reading(None, NoBullets(sc)), lines);
            && ReadingClean(r) && r.secs.Keys == NoBullets(sc).Keys
            && (r.current.Some? ==> r.current.value in sc.names)
  {
    if lines != [] {
      ReadKeepsClean(sc, lines[..|lines| - 1]);
      var line := lines[|lines| - 1];
      if "## " <= line {
        CanonicalIsName(sc, sc.names, Strip(line[3..]));
      } else if "- " <= line {
        assert OneLine(line[2..]);
        StripFacts(line[2..]);
      }
    }
  }

  /** Any text parses to clean bullets under exactly the names of the schema. */
  lemma ParsedIsClean(sc: Schema, raw: string)
    ensures AllClean(Parse(sc, raw), sc.names)
    ensures Schematic(sc, Parse(sc, raw)) == Parse(sc, raw)
  {
    SplitOneLine(raw);
    ReadKeepsClean(sc, SplitLines(raw));
  }

  // ---------------------------------------------------------------------------
  // Main results
  // ---------------------------------------------------------------------------

  /** Parsing undoes rendering exactly for the profiles whose bullets are trimmed single
      lines and whose text does not end in an empty bullet. */
  lemma RoundTrip(sc: Schema, secs: Sections)
    requires WellFormed(sc)
    ensures Parse(sc, Render(sc, secs)) == Schematic(sc, secs)
            <==> AllClean(secs, sc.names) && !EndsInEmptyBullet(sc, secs)
  {
    if AllClean(secs, sc.names) {
      if EndsInEmptyBullet(sc, secs) {
        FinalEmptyBulletLost(sc, secs);
        var n := sc.names[|sc.names| - 1];
        assert |Parse(sc, Render(sc, secs))[n]| < |Schematic(sc, secs)[n]|;
      } else {
        RoundTripClean(sc, secs);
      }
    } else {
      ParsedIsClean(sc, Render(sc, secs));
      if Parse(sc, Render(sc, secs)) == Schematic(sc, secs) {
        SameBulletsClean(sc.names, Parse(sc, Render(sc, secs)), secs);
      }
    }
  }

  lemma SameBulletsClean(names: seq<string>, a: Sections, b: Sections)
    requires AllClean(a, names) && a == map n | n in names :: Bullets(b, n)
    ensures AllClean(b, names)
  {
    forall i, j | 0 <= i < |names| && 0 <= j < |Bullets(b, names[i])| ensures Clean(Bullets(b, names[i])[j]) {
      assert Bullets(a, names[i]) == Bullets(b, names[i]);
      assert Clean(Bullets(a, names[i])[j]);
    }
  }

  /** Rendering after parsing is the identity on rendered text. */
  lemma RenderedIsFixed(sc: Schema, secs: Sections)
    requires WellFormed(sc) && AllClean(secs, sc.names) && !EndsInEmptyBullet(sc, secs)
    ensures Render(sc, Parse(sc, Render(sc, secs))) == Render(sc, secs)
  {
    RoundTrip(sc, secs);
    SameBulletsSameLines(sc.names, secs, Schematic(sc, secs));
  }

  lemma {:induction false} SameBulletsSameLines(names: seq<string>, a: Sections, b: Sections)
    requires forall i :: 0 <= i < |names| ==> Bullets(a, names[i]) == Bullets(b, names[i])
    ensures SectionLines(a, names) == SectionLines(b, names)
  {
    if names != [] {
      SameBulletsSameLines(names[..|names| - 1], a, b);
    }
  }

  // ---------------------------------------------------------------------------
  // Appending one fact
  // ---------------------------------------------------------------------------

  function Spaced(line: string): string {
    seq(|line|, i requires 0 <= i < |line| => if line[i] == '\n' || line[i] == '\r' then ' ' else line[i])
  }

  /** What `append_fact` makes of the line it is given. */
  function Sanitized(line: string): string { Strip(Spaced(line)) }

  /** The line without the white space around it, and with blanks for line feeds and carriage
      returns. */
  ghost predicate SanitizedTo(line: string, t: string) { Trimmed(t) && exists i, j :: CleanedAt(line, t, i, j) }

  ghost predicate CleanedAt(line: string, t: string, i: int, j: int) {
    && 0 <= i <= j <= |line| && |t| == j - i
    && (forall k :: 0 <= k < |t| ==>
          t[k] == if line[i + k] == '\n' || line[i + k] == '\r' then ' ' else line[i + k])
    && (forall k :: 0 <= k < i || j <= k < |line| ==> IsSpace(line[k]))
  }

  lemma SanitizedMeaning(line: string)
    ensures SanitizedTo(line, Sanitized(line))
  {
    StripMeaning(Spaced(line));
    var s, t := Spaced(line), Sanitized(line);
    var i, j :| Between(s, t, i, j);
    forall k | 0 <= k < i || j <= k < |line| ensures IsSpace(line[k]) {
      assert IsSpace(s[k]);
    }
    assert CleanedAt(line, t, i, j);
  }

  function Added(secs: Sections, section: string, line: string): Sections {
    secs[section := Bullets(secs, section) + [line]]
  }

  lemma SchematicAdded(sc: Schema, secs: Sections, section: string, line: string)
    requires section in sc.names && Schematic(sc, secs) == secs
    ensures Schematic(sc, Added(secs, section, line)) == Added(secs, section, line)
  {
    var more := Added(secs, section, line);
    forall n | n in sc.names ensures n in more && Schematic(sc, more)[n] == more[n] {
      assert n in Schematic(sc, secs);
    }
  }

  /** The bullets of one section with one more at the end, and the other sections as they were. */
  ghost predicate OneMore(sc: Schema, before: Sections, after: Sections, section: string, line: string) {
    forall n :: n in sc.names ==>
      Bullets(after, n) == if n == section then Bullets(before, n) + [line] else Bullets(before, n)
  }

  lemma AddedIsOneMore(sc: Schema, before: Sections, after: Sections, section: string, line: string)
    requires section in sc.names && Schematic(sc, before) == before && Schematic(sc, after) == after
    ensures after == Added(before, section, line) <==> OneMore(sc, before, after, section, line)
  {
    SchematicAdded(sc, before, section, line);
    if OneMore(sc, before, after, section, line) {
      var more := Added(before, section, line);
      assert after.Keys == Schematic(sc, after).Keys == Schematic(sc, more).Keys == more.Keys;
      forall n | n in after ensures after[n] == more[n] {
        assert n in Schematic(sc, after) && n in Schematic(sc, before);
      }
    }
  }

  lemma AddedClean(sc: Schema, secs: Sections, section: string, line: string)
    requires section in sc.names && AllClean(secs, sc.names)
    ensures AllClean(Added(secs, section, line), sc.names) <==> Clean(line)
  {
    var k :| 0 <= k < |sc.names| && sc.names[k] == section;
    var more := Added(secs, section, line);
    assert Bullets(more, sc.names[k])[|Bullets(secs, section)|] == line;
    if Clean(line) {
      forall i, j | 0 <= i < |sc.names| && 0 <= j < |Bullets(more, sc.names[i])|
        ensures Clean(Bullets(more, sc.names[i])[j])
      {
        if j < |Bullets(secs, sc.names[i])| {
          assert Clean(Bullets(secs, sc.names[i])[j]);
        }
      }
    }
  }

  lemma {:induction false} CanonicalIs(sc: Schema, names: seq<string>, heading: string, i: nat)
    requires i <= |names| && (i < |names| ==> sc.lower(names[i]) == sc.lower(heading))
    requires forall j :: 0 <= j < i ==> sc.lower(names[j]) != sc.lower(heading)
    ensures Canonical(sc, names, heading) == if i < |names| then Some(names[i]) else None
  {
    if i > 0 {
      CanonicalIs(sc, names[1..], heading, i - 1);
    }
  }

  /** A bullet goes to the section that the heading before it names, letter case and outer white space
      aside; under any other heading it is dropped. */
  lemma HeadingDecides(sc: Schema, r: Reading, heading: string, bullet: string, i: nat)
    requires i <= |sc.names| && (i < |sc.names| ==> sc.lower(sc.names[i]) == sc.lower(Strip(heading)))
    requires forall j :: 0 <= j < i ==> sc.lower(sc.names[j]) != sc.lower(Strip(heading))
    ensures var next := ReadLine(sc, ReadLine(sc, r, "## " + heading), "- " + bullet);
            next.secs == if i < |sc.names|
                         then r.secs[sc.names[i] := Bullets(r.secs, sc.names[i]) + [Strip(bullet)]]
                         else r.secs
  {
    CanonicalIs(sc, sc.names, Strip(heading), i);
    assert ("## " + heading)[3..] == heading && ("- " + bullet)[2..] == bullet;
    assert !("## " <= "- " + bullet) by {
      assert ("- " + bullet)[0] == '-';
    }
  }

  /** Line feeds and carriage returns are replaced, the other line boundaries are not: a
      line holding one of them passes the checks and is stored cut short. */
  lemma SeparatorSurvives()
    ensures Sanitized("a\U{2028}b") == "a\U{2028}b" && !OneLine("a\U{2028}b")
  {
    var s := "a\U{2028}b";
    assert Spaced(s) == s;
    assert TrimStart(s) == s && TrimEnd(s) == s;
    assert IsLineBreak(s[1]);
  }
}
