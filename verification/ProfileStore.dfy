/** Appending facts to a profile file: the text side of `append_fact` in memem/profiles.py,
    and what the append protocol guarantees for it. The similarity score that decides on
    duplicates is arbitrary. */
module ProfileStore {
  import opened Wrappers
  import opened ProfileProtocol
  import opened ProfileText
  import opened PyStrings

  const LINE_CAP := 200

  /** The schema of a file and the test for near-duplicate bullets. */
  datatype Store = Store(sc: Schema, similar: (string, string) -> bool)

  // ---------------------------------------------------------------------------
  // What a call is allowed to ask for
  // ---------------------------------------------------------------------------

  predicate Admissible(st: Store, c: Call) {
    c.section in st.sc.names && c.line == Strip(c.line) && 0 < |c.line| <= LINE_CAP
  }

  /** The checks before the lock: section, emptiness, length, security scan. */
  method Admit(st: Store, section: string, line: string, threat: bool) returns (r: Option<Result>, c: Call)
    ensures r == Some(InvalidSection) <==>
              forall i :: 0 <= i < |st.sc.names| ==> st.sc.lower(st.sc.names[i]) != st.sc.lower(Strip(section))
    ensures r == None ==>
              && Admissible(st, c) && SanitizedTo(line, c.line) && !threat && 0 < |c.line| <= 200
              && st.sc.lower(c.section) == st.sc.lower(Strip(section))
    ensures r == Some(InvalidSection) || r == None
            || (r == Some(Error) && exists t :: SanitizedTo(line, t) && (threat || t == "" || |t| > 200))
  {
    c := Call("", "");
    var canonical := Canonical(st.sc, st.sc.names, Strip(section));
    CanonicalExists(st.sc, st.sc.names, Strip(section));
    if canonical.None? {
      return Some(InvalidSection), c;
    }
    var clean := Sanitized(line);
    SanitizedMeaning(line);
    if clean == "" {
      return Some(Error), c;
    }
    if |clean| > LINE_CAP {
      return Some(Error), c;
    }
    if threat {
      return Some(Error), c;
    }
    StripFacts(Spaced(line));
    StripFacts(clean);
    r, c := None, Call(canonical.value, clean);
  }

  lemma {:induction false} CanonicalExists(sc: Schema, names: seq<string>, heading: string)
    ensures var c := Canonical(sc, names, heading);
            && (c.None? <==> forall i :: 0 <= i < |names| ==> sc.lower(names[i]) != sc.lower(heading))
            && (c.Some? ==> c.value in names && sc.lower(c.value) == sc.lower(heading))
  {
    if names != [] {
      CanonicalExists(sc, names[1..], heading);
    }
  }

  // ---------------------------------------------------------------------------
  // One locked attempt
  // ---------------------------------------------------------------------------

  function RawOf(sc: Schema, file: Option<string>): string {
    if file.Some? then file.value else Render(sc, NoBullets(sc))
  }

  function SectionsOf(sc: Schema, file: Option<string>): Sections {
    if file.Some? then Parse(sc, file.value) else NoBullets(sc)
  }

  function NewText(sc: Schema, file: Option<string>, c: Call): string {
    Render(sc, Added(SectionsOf(sc, file), c.section, c.line))
  }

  predicate IsDuplicate(st: Store, file: Option<string>, c: Call) {
    var bullets := Bullets(SectionsOf(st.sc, file), c.section);
    exists i :: 0 <= i < |bullets| && st.similar(c.line, bullets[i])
  }

  /** The append protocol over this store's texts. */
  function ProfileOf(st: Store): Profile {
    Profile(
      c => Admissible(st, c),
      f => RawOf(st.sc, f),
      (f, c) => NewText(st.sc, f, c),
      (f, c) => IsDuplicate(st, f, c))
  }

  datatype Attempt = Finished(r: Result) | NeedsCompaction(newText: string, snapshot: string)

  class ProfileFile {
    var text: Option<string>

    /** What one attempt does while it holds the lock. */
    method AppendLocked(st: Store, c: Call) returns (a: Attempt)
      modifies this
      ensures var p, was := ProfileOf(st), old(text);
              if p.duplicate(was, c) then a == Finished(Duplicate) && text == was
              else if Fits(p, was, c) then a == Finished(Appended) && text == Some(p.newText(was, c))
              else a == NeedsCompaction(p.newText(was, c), p.rawOf(was)) && text == was
      ensures var bullets := Bullets(SectionsOf(st.sc, old(text)), c.section);
              && (a == Finished(Duplicate) <==> exists b :: b in bullets && st.similar(c.line, b))
              && (a == Finished(Appended) ==> text.Some? && |text.value| <= 2500)
              && (a.NeedsCompaction? ==> |a.newText| > 2500 && a.snapshot == RawOf(st.sc, old(text)))
    {
      var raw, secs;
      if text.Some? {
        raw := text.value;
        secs := ParseProfile(st.sc, raw);
      } else {
        secs := NoBullets(st.sc);
        raw := RenderProfile(st.sc, secs);
      }
      var bullets := Bullets(secs, c.section);
      for i := 0 to |bullets|
        invariant text == old(text)
        invariant forall j :: 0 <= j < i ==> !st.similar(c.line, bullets[j])
      {
        if st.similar(c.line, bullets[i]) {
          return Finished(Duplicate);
        }
      }
      secs := secs[c.section := bullets + [c.line]];
      var newRaw := RenderProfile(st.sc, secs);
      if |newRaw| <= CHAR_CAP {
        text := Some(newRaw);
        return Finished(Appended);
      }
      a := NeedsCompaction(newRaw, raw);
    }
  }

  // ---------------------------------------------------------------------------
  // The protocol on texts
  // ---------------------------------------------------------------------------

  /** Parsing the template of a missing file finds no bullets, so an append treats the
      two alike. */
  lemma {:induction false} StoreCoherent(st: Store)
    requires WellFormed(st.sc)
    ensures Coherent(ProfileOf(st))
  {
    var p, none := ProfileOf(st), NoBullets(st.sc);
    RoundTrip(st.sc, none);
    assert Schematic(st.sc, none) == none;
    assert SectionsOf(st.sc, Some(p.rawOf(None))) == none;
  }

  /** In every interleaving, the bullets of each plain new version are those of the version
      before it plus the appended line, if and only if the line holds no line boundary
      and the text does not end in an empty bullet. */
  lemma CommitsAddOneBullet(st: Store, initial: Option<string>, processes: nat, es: seq<Event>, k: nat)
    requires WellFormed(st.sc) && Legal(ProfileOf(st), Start(initial, processes), es)
    requires var log := After(ProfileOf(st), Start(initial, processes), es).log;
             k < |log| && !log[k].compacted
    ensures var s := After(ProfileOf(st), Start(initial, processes), es);
            var before, m := SectionsOf(st.sc, Version(s, k)), s.log[k];
            OneMore(st.sc, before, Parse(st.sc, m.after), m.c.section, m.c.line)
            <==> OneLine(m.c.line) && !EndsInEmptyBullet(st.sc, Added(before, m.c.section, m.c.line))
  {
    StoreCoherent(st);
    AppendsAreSerial(ProfileOf(st), initial, processes, es);
    var s := After(ProfileOf(st), Start(initial, processes), es);
    var m := s.log[k];
    assert Justified(ProfileOf(st), Version(s, k), m);
    AddedRoundTrips(st.sc, Version(s, k), m.c);
    var before := SectionsOf(st.sc, Version(s, k));
    SectionsSchematic(st.sc, Version(s, k));
    SectionsSchematic(st.sc, Some(m.after));
    AddedIsOneMore(st.sc, before, Parse(st.sc, m.after), m.c.section, m.c.line);
  }

  lemma SectionsSchematic(sc: Schema, file: Option<string>)
    requires WellFormed(sc)
    ensures var secs := SectionsOf(sc, file); AllClean(secs, sc.names) && Schematic(sc, secs) == secs
  {
    if file.Some? {
      ParsedIsClean(sc, file.value);
    }
  }

  lemma AddedRoundTrips(sc: Schema, file: Option<string>, c: Call)
    requires WellFormed(sc) && c.section in sc.names && c.line == Strip(c.line)
    ensures var secs := Added(SectionsOf(sc, file), c.section, c.line);
            Parse(sc, NewText(sc, file, c)) == secs <==> OneLine(c.line) && !EndsInEmptyBullet(sc, secs)
  {
    var before := SectionsOf(sc, file);
    var secs := Added(before, c.section, c.line);
    SectionsSchematic(sc, file);
    StripFacts(c.line);
    AddedClean(sc, before, c.section, c.line);
    RoundTrip(sc, secs);
    SchematicAdded(sc, before, c.section, c.line);
  }
}
