/** What becomes of a text that is written to a memory file and read back: memem/obsidian_store.py
    strips generated sections of links on both ways, and reading a file translates line ends. */
module StoredText {
  import opened PyStrings
  import opened Wrappers

  // ---------------------------------------------------------------------------
  // The expression for a generated section
  // ---------------------------------------------------------------------------

  const HEADER := "\n\n## Related\n"
  const LINK := "- [["

  function Shift(found: Option<nat>, n: nat): Option<nat> {
    match found
    case None => None
    case Some(k) => Some(k + n)
  }

  function NameLength(s: string): (n: nat)
    ensures n <= |s| && forall i :: 0 <= i < n ==> s[i] != ']' && s[i] != '\n'
    ensures n < |s| ==> s[n] == ']' || s[n] == '\n'
  {
    if s == "" || s[0] == ']' || s[0] == '\n' then 0 else 1 + NameLength(s[1..])
  }

  /** The length of "- [[name]]" at the start of a text. */
  function ItemLength(s: string): (r: Option<nat>)
    ensures r.Some? ==> 0 < r.value <= |s|
  {
    if !(LINK <= s) then None
    else
      var n := NameLength(s[4..]);
      if n > 0 && 6 + n <= |s| && s[4 + n] == ']' && s[5 + n] == ']' then Some(6 + n) else None
  }

  /** White space up to the last place, among those it reaches, where a line ends. */
  function TailLength(s: string): (r: Option<nat>)
    ensures r.Some? ==> r.value <= |s|
  {
    if s == "" then Some(0)
    else if !IsSpace(s[0]) then None
    else if TailLength(s[1..]).Some? then Shift(TailLength(s[1..]), 1)
    else if s[0] == '\n' then Some(0)
    else None
  }

  /** After an item: its line end if the match can go on behind it. */
  function AfterItem(s: string): (r: Option<nat>)
    ensures r.Some? ==> r.value <= |s|
    decreases |s|, 2
  {
    if s != "" && s[0] == '\n' && AfterLine(s[1..]).Some? then Shift(AfterLine(s[1..]), 1) else AfterLine(s)
  }

  /** After an item and its line end: another item, else another section, else the tail. */
  function AfterLine(s: string): (r: Option<nat>)
    ensures r.Some? ==> r.value <= |s|
    decreases |s|, 1
  {
    var item := ItemLength(s);
    if item.Some? && AfterItem(s[item.value..]).Some? then Shift(AfterItem(s[item.value..]), item.value)
    else if SectionLength(s).Some? then SectionLength(s)
    else TailLength(s)
  }

  /** The length of the match at the start of a text. */
  function SectionLength(s: string): (r: Option<nat>)
    ensures r.Some? ==> |HEADER| < r.value <= |s|
    decreases |s|, 0
  {
    if !(HEADER <= s) then None
    else
      var items := s[|HEADER|..];
      var item := ItemLength(items);
      if item.None? then None
      else Shift(AfterItem(items[item.value..]), |HEADER| + item.value)
  }

  /** Every match removed, from left to right; `find` gives the length of a match at the start
      of a text. */
  function Removed(find: string -> Option<nat>, s: string): string
    decreases |s|
  {
    if s == "" then ""
    else if find(s).Some? && 0 < find(s).value <= |s| then Removed(find, s[find(s).value..])
    else [s[0]] + Removed(find, s[1..])
  }

  /** Somewhere in the text there is a match. */
  predicate Occurs(find: string -> Option<nat>, s: string) {
    find(s).Some? || (s != "" && Occurs(find, s[1..]))
  }

  function WithoutSections(s: string): string { Removed(SectionLength, s) }

  function StripSections(s: string): string { TrimEnd(WithoutSections(s)) }

  predicate HasSection(s: string) { Occurs(SectionLength, s) }

  // ---------------------------------------------------------------------------
  // Writing and reading back
  // ---------------------------------------------------------------------------

  /** The name of a memory file without its suffix. */
  type Stem = s: string |
    s != "" && forall i :: 0 <= i < |s| ==> s[i] != ']' && s[i] != '\n' && s[i] != '\r'
    witness "x"

  function Item(name: Stem): (r: string)
    ensures |r| == 6 + |name| && r[0] == '-' && r[|r| - 1] == ']'
  {
    LINK + name + "]]"
  }

  function LinkLines(links: seq<Stem>): string {
    if links == [] then "" else Item(links[0]) + "\n" + LinkLines(links[1..])
  }

  function Links(links: seq<Stem>): string { if links == [] then "" else HEADER + LinkLines(links) }

  /** Reading a text file turns every carriage return, with the line feed after it if there is
      one, into a line feed. */
  function Translated(s: string): string {
    if s == "" then ""
    else if s[0] == '\r' then
      ['\n'] + Translated(if |s| > 1 && s[1] == '\n' then s[2..] else s[1..])
    else [s[0]] + Translated(s[1..])
  }

  /** The essence a memory has after its text is written, with the links of the moment, and
      parsed again. */
  function Stored(text: string, links: seq<Stem>): string {
    Strip(StripSections(Strip(Translated(StripSections(text) + Links(links)))))
  }

  // ---------------------------------------------------------------------------
  // Trimming and concatenation
  // ---------------------------------------------------------------------------

  predicate White(s: string) { forall i :: 0 <= i < |s| ==> IsSpace(s[i]) }

  /** Not empty, and no white space at the end. */
  predicate Solid(s: string) { s != "" && !IsSpace(s[|s| - 1]) }

  lemma {:induction false} TrimEndConcat(x: string, y: string)
    ensures TrimEnd(x + y) == if TrimEnd(y) != "" then x + TrimEnd(y) else TrimEnd(x)
    decreases |y|
  {
    if y == "" {
      assert x + y == x;
    } else if IsSpace(y[|y| - 1]) {
      assert (x + y)[..|x + y| - 1] == x + y[..|y| - 1];
      TrimEndConcat(x, y[..|y| - 1]);
    }
  }

  lemma {:induction false} TrimEndWhite(s: string)
    ensures White(s) <==> TrimEnd(s) == ""
    ensures TrimEnd(s) <= s && White(s[|TrimEnd(s)|..]) && (TrimEnd(s) != "" ==> Solid(TrimEnd(s)))
  {
    if s != "" && IsSpace(s[|s| - 1]) {
      var front := s[..|s| - 1];
      TrimEndWhite(front);
      assert s == front + [s[|s| - 1]];
    } else if s != "" {
      assert !White(s);
    }
  }

  lemma {:induction false} TrimStartWhite(s: string) returns (n: nat)
    ensures n <= |s| && TrimStart(s) == s[n..] && White(s[..n]) && (n < |s| ==> !IsSpace(s[n]))
  {
    if s != "" && IsSpace(s[0]) {
      n := TrimStartWhite(s[1..]);
      n := n + 1;
      assert s[..n] == [s[0]] + s[1..][..n - 1];
    } else {
      n := 0;
    }
  }

  lemma {:induction false} TrimStartConcat(x: string, y: string)
    ensures TrimStart(x + y) == if TrimStart(x) != "" then TrimStart(x) + y else TrimStart(y)
  {
    if x == "" {
      assert x + y == y;
    } else if IsSpace(x[0]) {
      assert (x + y)[1..] == x[1..] + y;
      TrimStartConcat(x[1..], y);
    }
  }

  /** What white space surrounds is what Strip leaves. */
  lemma StripParts(s: string) returns (before: string, after: string)
    ensures s == before + Strip(s) + after && White(before) && White(after)
    ensures Strip(s) != "" ==> !IsSpace(Strip(s)[0]) && Solid(Strip(s))
  {
    var n := TrimStartWhite(s);
    var rest := s[n..];
    TrimEndWhite(rest);
    before, after := s[..n], rest[|TrimEnd(rest)|..];
    assert s == before + (TrimEnd(rest) + after);
  }

  lemma {:induction false} TrimStartOfWhite(w: string)
    requires White(w)
    ensures TrimStart(w) == ""
  {
    if w != "" {
      TrimStartOfWhite(w[1..]);
    }
  }

  lemma StripSurrounded(before: string, y: string, after: string)
    requires White(before) && White(after) && y != "" && !IsSpace(y[0]) && Solid(y)
    ensures Strip(before + y + after) == y
  {
    TrimStartOfWhite(before);
    TrimStartConcat(before, y + after);
    assert before + y + after == before + (y + after);
    TrimStartConcat(y, after);
    TrimEndWhite(after);
    TrimEndConcat(y, after);
  }

  // ---------------------------------------------------------------------------
  // Translation of line ends
  // ---------------------------------------------------------------------------

  predicate HasPair(s: string) { exists i :: 0 <= i < |s| - 1 && s[i] == '\r' && s[i + 1] == '\n' }

  lemma {:induction false} TranslatedLength(s: string)
    ensures |Translated(s)| <= |s|
    ensures |Translated(s)| == |s| <==> !HasPair(s)
    decreases |s|
  {
    if s != "" {
      if s[0] == '\r' && |s| > 1 && s[1] == '\n' {
        TranslatedLength(s[2..]);
      } else {
        var rest := s[1..];
        TranslatedLength(rest);
        if i :| 0 <= i < |rest| - 1 && rest[i] == '\r' && rest[i + 1] == '\n' {
          assert s[i + 1] == '\r' && s[i + 2] == '\n';
        }
        if i :| 0 <= i < |s| - 1 && s[i] == '\r' && s[i + 1] == '\n' {
          assert rest[i - 1] == '\r' && rest[i] == '\n';
        }
      }
    }
  }

  lemma TranslatedHead(c: char, s: string)
    requires c != '\r' || s == "" || s[0] != '\n'
    ensures Translated([c] + s) == [if c == '\r' then '\n' else c] + Translated(s)
  {
    assert ([c] + s)[1..] == s;
  }

  lemma TranslatedPair(s: string)
    ensures Translated(['\r', '\n'] + s) == ['\n'] + Translated(s)
  {
    assert (['\r', '\n'] + s)[2..] == s;
  }

  lemma {:induction false} TranslatedConcat(x: string, y: string)
    requires x == "" || x[|x| - 1] != '\r' || y == "" || y[0] != '\n'
    ensures Translated(x + y) == Translated(x) + Translated(y)
    decreases |x|
  {
    if x == "" {
      assert x + y == y;
    } else if x[0] == '\r' && |x| > 1 && x[1] == '\n' {
      var rest := x[2..];
      assert x == ['\r', '\n'] + rest && x + y == ['\r', '\n'] + (rest + y);
      TranslatedConcat(rest, y);
      TranslatedPair(rest);
      TranslatedPair(rest + y);
      Associate('\n', Translated(rest), Translated(y));
    } else {
      var rest := x[1..];
      assert x == [x[0]] + rest && x + y == [x[0]] + (rest + y);
      TranslatedConcat(rest, y);
      assert x[0] != '\r' || rest + y == "" || (rest + y)[0] != '\n';
      TranslatedHead(x[0], rest);
      TranslatedHead(x[0], rest + y);
      Associate(if x[0] == '\r' then '\n' else x[0], Translated(rest), Translated(y));
    }
  }

  lemma Associate(c: char, a: string, b: string)
    ensures [c] + (a + b) == ([c] + a) + b
  {
  }

  lemma {:induction false} TranslatedWhite(w: string)
    requires White(w)
    ensures White(Translated(w))
    decreases |w|
  {
    if w != "" {
      if w[0] == '\r' && |w| > 1 && w[1] == '\n' {
        TranslatedWhite(w[2..]);
      } else {
        TranslatedWhite(w[1..]);
      }
    }
  }

  lemma {:induction false} TranslatedPlain(s: string)
    requires '\r' !in s
    ensures Translated(s) == s
  {
    if s != "" {
      TranslatedPlain(s[1..]);
    }
  }

  lemma TranslatedEnds(s: string)
    requires s != "" && !IsSpace(s[0]) && Solid(s)
    ensures var t := Translated(s); t != "" && t[0] == s[0] && Solid(t)
  {
    var front, last := s[..|s| - 1], s[|s| - 1..];
    assert s == front + last && last == [s[|s| - 1]];
    TranslatedConcat(front, last);
    assert last[1..] == "";
  }

  lemma StripTranslated(s: string)
    ensures Strip(Translated(s)) == Translated(Strip(s))
  {
    var before, after := StripParts(s);
    var y := Strip(s);
    TranslatedWhite(before);
    TranslatedWhite(after);
    if y == "" {
      assert White(s);
      TranslatedWhite(s);
      TrimStartOfWhite(Translated(s));
    } else {
      assert s == before + (y + after);
      TranslatedConcat(before, y + after);
      TranslatedConcat(y, after);
      TranslatedEnds(y);
      StripSurrounded(Translated(before), Translated(y), Translated(after));
      assert Translated(before) + (Translated(y) + Translated(after))
          == Translated(before) + Translated(y) + Translated(after);
    }
  }

  // ---------------------------------------------------------------------------
  // Sections before other endings
  // ---------------------------------------------------------------------------

  /** What a solid text is followed by: nothing, or links without their last line end. */
  predicate Ending(a: string) { a == "" || HEADER <= a }

  lemma {:induction false} TailOfWhite(w: string)
    requires White(w)
    ensures TailLength(w) == Some(|w|)
  {
    if w != "" {
      TailOfWhite(w[1..]);
    }
  }

  lemma {:induction false} TailInside(e: string, a: string, w: string)
    requires Solid(e)
    ensures TailLength(e + a) == TailLength(e + w)
  {
    if IsSpace(e[0]) {
      assert (e + a)[1..] == e[1..] + a && (e + w)[1..] == e[1..] + w;
      TailInside(e[1..], a, w);
    }
  }

  lemma {:induction false} NameInside(e: string, a: string, w: string)
    requires NameLength(e + a) < |e|
    ensures NameLength(e + w) == NameLength(e + a)
  {
    if e != "" && e[0] != ']' && e[0] != '\n' {
      assert (e + a)[1..] == e[1..] + a && (e + w)[1..] == e[1..] + w;
      NameInside(e[1..], a, w);
    }
  }

  /** An item lies on one line, so it ends before the text's ending begins. */
  lemma ItemInside(e: string, a: string, w: string)
    requires Ending(a) && ItemLength(e + a).Some?
    ensures ItemLength(e + a).value <= |e| && ItemLength(e + w) == ItemLength(e + a)
  {
    var s := e + a;
    var n := NameLength(s[4..]);
    assert forall i :: 0 <= i < 6 + n ==> s[i] != '\n' by {
      assert s[..4] == LINK;
      forall i | 4 <= i < 4 + n ensures s[i] != '\n' {
        assert s[i] == s[4..][i - 4];
      }
    }
    assert |e| < |s| ==> s[|e|] == '\n';
    assert s[4..] == e[4..] + a && (e + w)[4..] == e[4..] + w;
    NameInside(e[4..], a, w);
    assert e[..4] == LINK by {
      assert e[..4] == s[..4];
    }
    assert (e + w)[..4] == LINK;
  }

  lemma Slices(e: string, a: string, n: nat)
    requires n <= |e|
    ensures (e + a)[n..] == e[n..] + a && (e + a)[..n] == e[..n]
  {
  }

  lemma {:induction false} SectionAnyEnding(e: string, a: string, w: string)
    requires Ending(a) && White(w) && Solid(e) && SectionLength(e + a).Some?
    ensures SectionLength(e + w).Some?
    decreases |e|, 0
  {
    HeaderInside(e, a);
    if |e| == 12 {
      StraddleFails(e, a);
    } else {
      var items := e[13..];
      Slices(e, a, 13);
      Slices(e, w, 13);
      ItemInside(items, a, w);
      var k := ItemLength(items + a).value;
      Slices(items, a, k);
      Slices(items, w, k);
      ItemAnyEnding(items[k..], a, w);
    }
  }

  lemma StraddleFails(e: string, a: string)
    requires Ending(a) && a != "" && |e| == 12
    ensures SectionLength(e + a).None?
  {
    if HEADER <= e + a {
      var items := (e + a)[13..];
      assert items == a[1..] && items[0] == '\n';
    }
  }

  /** The header of a section ends before the text's ending begins, but for its line end. */
  lemma HeaderInside(e: string, a: string)
    requires Ending(a) && Solid(e) && HEADER <= e + a
    ensures |HEADER| == 13
    ensures (|e| > 13 && HEADER <= e) || (|e| == 12 && a != "")
  {
    var s := e + a;
    assert s[..13] == HEADER;
    if |e| < 13 {
      assert s[|e| - 1] == HEADER[|e| - 1] && s[|e|] == HEADER[|e|] == '\n';
    } else {
      assert e[..13] == s[..13];
      assert e[12] == '\n';
    }
  }

  lemma {:induction false} ItemAnyEnding(e: string, a: string, w: string)
    requires Ending(a) && White(w) && (e == "" || Solid(e)) && AfterItem(e + a).Some?
    ensures AfterItem(e + w).Some?
    decreases |e|, 2
  {
    if e == "" {
      assert e + w == w;
      TailOfWhite(w);
    } else {
      Slices(e, a, 1);
      Slices(e, w, 1);
      if e[0] == '\n' && AfterLine(e[1..] + a).Some? {
        LineAnyEnding(e[1..], a, w);
      } else {
        LineAnyEnding(e, a, w);
      }
    }
  }

  lemma {:induction false} LineAnyEnding(e: string, a: string, w: string)
    requires Ending(a) && White(w) && Solid(e) && AfterLine(e + a).Some?
    ensures AfterLine(e + w).Some?
    decreases |e|, 1
  {
    var item := ItemLength(e + a);
    if item.Some? && AfterItem((e + a)[item.value..]).Some? {
      var k := item.value;
      ItemInside(e, a, w);
      Slices(e, a, k);
      Slices(e, w, k);
      ItemAnyEnding(e[k..], a, w);
    } else if SectionLength(e + a).Some? {
      SectionAnyEnding(e, a, w);
    } else {
      TailInside(e, a, w);
    }
  }

  // ---------------------------------------------------------------------------
  // What is stripped, and what is kept
  // ---------------------------------------------------------------------------

  /** No match begins in `e` when `a` follows it. */
  predicate ClearBefore(find: string -> Option<nat>, e: string, a: string) {
    e == "" || (find(e + a).None? && ClearBefore(find, e[1..], a))
  }

  lemma RemovedCons(find: string -> Option<nat>, c: char, s: string)
    requires find([c] + s).None?
    ensures Removed(find, [c] + s) == [c] + Removed(find, s)
  {
    assert ([c] + s)[1..] == s;
  }

  lemma {:induction false} NothingRemoved(find: string -> Option<nat>, e: string, a: string)
    requires ClearBefore(find, e, a)
    ensures Removed(find, e + a) == e + Removed(find, a)
  {
    if e == "" {
      assert e + a == a;
    } else {
      var rest := e[1..];
      NothingRemoved(find, rest, a);
      assert e + a == [e[0]] + (rest + a);
      RemovedCons(find, e[0], rest + a);
      assert e + Removed(find, a) == [e[0]] + (rest + Removed(find, a));
    }
  }

  /** A solid text without a section stays without one in front of any ending. */
  lemma {:induction false} ClearAnyEnding(e: string, a: string, w: string)
    requires Ending(a) && White(w) && (e == "" || Solid(e)) && !HasSection(e + w)
    ensures ClearBefore(SectionLength, e, a)
  {
    if e != "" {
      if SectionLength(e + a).Some? {
        SectionAnyEnding(e, a, w);
      }
      assert (e + w)[1..] == e[1..] + w;
      ClearAnyEnding(e[1..], a, w);
    }
  }

  /** The lines of links without their last line end. */
  function LinkText(links: seq<Stem>): string
    requires links != []
    decreases |links|, 0
  {
    Item(links[0]) + MoreLinks(links[1..])
  }

  function MoreLinks(links: seq<Stem>): string
    decreases |links|, 1
  {
    if links == [] then "" else "\n" + LinkText(links)
  }

  lemma {:induction false} LinkTextIs(links: seq<Stem>)
    requires links != []
    ensures LinkLines(links) == LinkText(links) + "\n"
    ensures LinkText(links) != "" && !IsSpace(LinkText(links)[0]) && Solid(LinkText(links))
  {
    if |links| > 1 {
      LinkTextIs(links[1..]);
      GlueLines(Item(links[0]), LinkText(links[1..]));
    }
  }

  lemma GlueLines(a: string, b: string)
    ensures a + "\n" + (b + "\n") == (a + ("\n" + b)) + "\n"
  {
  }

  lemma {:induction false} NameOfStem(name: string, rest: string)
    requires forall i :: 0 <= i < |name| ==> name[i] != ']' && name[i] != '\n'
    ensures NameLength(name + ("]]" + rest)) == |name|
  {
    var s := name + ("]]" + rest);
    if name == "" {
      assert s[0] == ']';
    } else {
      assert s[1..] == name[1..] + ("]]" + rest);
      NameOfStem(name[1..], rest);
    }
  }

  lemma LinkIsItem(name: Stem, rest: string)
    ensures var s := Item(name) + rest;
            ItemLength(s) == Some(6 + |name|) && s[6 + |name|..] == rest
  {
    var s := Item(name) + rest;
    assert s[..4] == LINK && s[4..] == name + ("]]" + rest);
    NameOfStem(name, rest);
    assert s[4 + |name|] == ']' && s[5 + |name|] == ']';
  }

  /** A match that takes the whole text. */
  predicate Whole(find: string -> Option<nat>, s: string) { find(s) == Some(|s|) }

  lemma ItemThen(name: Stem, rest: string)
    requires Whole(AfterItem, rest)
    ensures Whole(AfterLine, Item(name) + rest)
  {
    LinkIsItem(name, rest);
  }

  lemma HeaderThen(name: Stem, rest: string)
    requires Whole(AfterItem, rest)
    ensures Whole(SectionLength, HEADER + (Item(name) + rest))
  {
    var items := Item(name) + rest;
    LinkIsItem(name, rest);
    var s := HEADER + items;
    assert s[..13] == HEADER && s[13..] == items;
  }

  lemma LineThen(t: string)
    requires Whole(AfterLine, t)
    ensures Whole(AfterItem, "\n" + t)
  {
    assert ("\n" + t)[1..] == t;
  }

  lemma LinkThen(name: Stem, rest: string)
    requires Whole(AfterItem, rest)
    ensures Whole(AfterItem, "\n" + (Item(name) + rest))
  {
    ItemThen(name, rest);
    LineThen(Item(name) + rest);
  }

  /** Generated links match the expression to their end. */
  lemma {:induction false} LinksMatch(links: seq<Stem>)
    ensures Whole(AfterItem, MoreLinks(links))
  {
    if links != [] {
      LinksMatch(links[1..]);
      LinkThen(links[0], MoreLinks(links[1..]));
    }
  }

  lemma LinksAreSection(links: seq<Stem>)
    requires links != []
    ensures Whole(SectionLength, HEADER + LinkText(links))
  {
    LinksMatch(links[1..]);
    HeaderThen(links[0], MoreLinks(links[1..]));
  }

  lemma WholeRemoved(find: string -> Option<nat>, s: string)
    requires s != "" && Whole(find, s)
    ensures Removed(find, s) == ""
  {
  }

  lemma LinksVanish(links: seq<Stem>)
    requires links != []
    ensures WithoutSections(HEADER + LinkText(links)) == ""
  {
    LinksAreSection(links);
    WholeRemoved(SectionLength, HEADER + LinkText(links));
  }

  /** The links of a file as they are read back: without their last line end. */
  function ReadLinks(links: seq<Stem>): (a: string)
    ensures Ending(a)
  {
    if links == [] then "" else HEADER + LinkText(links)
  }

  lemma LinksStripped(u: string, links: seq<Stem>)
    requires u != "" && !IsSpace(u[0]) && Solid(u) && !HasSection(u)
    ensures Strip(StripSections(u + ReadLinks(links))) == u
  {
    assert u + "" == u;
    ClearAnyEnding(u, ReadLinks(links), "");
    NothingRemoved(SectionLength, u, ReadLinks(links));
    if links != [] {
      LinksVanish(links);
    }
    assert WithoutSections(u + ReadLinks(links)) == u;
  }

  /** A text without a generated section, as given and with its line ends translated, is stored
      as it is but for the white space around it and its carriage returns. */
  lemma StoredAsGiven(text: string, links: seq<Stem>)
    requires Strip(text) != "" && !HasSection(text) && !HasSection(Translated(Strip(text)))
    ensures Stored(text, links) == Translated(Strip(text))
  {
    NothingOccurs(SectionLength, text);
    BodyOfStored(text, links);
    var before, after := StripParts(text);
    TranslatedEnds(Strip(text));
    LinksStripped(Translated(Strip(text)), links);
  }

  lemma {:induction false} NothingOccurs(find: string -> Option<nat>, s: string)
    requires !Occurs(find, s)
    ensures Removed(find, s) == s
  {
    if s != "" {
      NothingOccurs(find, s[1..]);
    }
  }

  lemma TrimEndParts(text: string) returns (before: string)
    requires Strip(text) != ""
    ensures TrimEnd(text) == before + Strip(text) && White(before)
    ensures !IsSpace(Strip(text)[0]) && Solid(Strip(text))
  {
    var after;
    before, after := StripParts(text);
    var front := before + Strip(text);
    assert text == front + after && Solid(front);
    TrimEndWhite(after);
    TrimEndConcat(front, after);
  }

  lemma LinksRead(links: seq<Stem>) returns (end: string)
    ensures Translated(Links(links)) == ReadLinks(links) + end && White(end)
    ensures ReadLinks(links) != "" ==> Solid(ReadLinks(links))
  {
    PlainLinks(links);
    TranslatedPlain(Links(links));
    if links == [] {
      end := "";
    } else {
      LinkTextIs(links);
      end := "\n";
      assert Links(links) == ReadLinks(links) + end;
      assert Solid(HEADER + LinkText(links));
    }
  }

  /** The body as it is read back. */
  lemma BodyOfStored(text: string, links: seq<Stem>)
    requires Strip(text) != ""
    ensures Strip(Translated(TrimEnd(text) + Links(links))) == Translated(Strip(text)) + ReadLinks(links)
  {
    var before := TrimEndParts(text);
    var end := LinksRead(links);
    var y, l := Strip(text), ReadLinks(links);
    TranslatedBody(before, y, Links(links));
    TranslatedWhite(before);
    TranslatedEnds(y);
    RegroupBody(Translated(before), Translated(y), l, end);
    SolidStart(Translated(y), l);
    StripSurrounded(Translated(before), Translated(y) + l, end);
  }

  lemma SolidStart(y: string, l: string)
    requires y != "" && !IsSpace(y[0]) && Solid(y) && (l == "" || Solid(l))
    ensures var t := y + l; t != "" && !IsSpace(t[0]) && Solid(t)
  {
  }

  lemma TranslatedBody(before: string, y: string, l: string)
    requires y != "" && !IsSpace(y[0]) && Solid(y)
    ensures Translated(before + y + l) == Translated(before) + Translated(y) + Translated(l)
  {
    TranslatedConcat(before + y, l);
    TranslatedConcat(before, y);
  }

  lemma RegroupBody(b: string, y: string, l: string, end: string)
    ensures b + y + (l + end) == b + (y + l) + end
  {
  }

  lemma {:induction false} PlainLinks(links: seq<Stem>)
    ensures '\r' !in Links(links) && '\r' !in LinkLines(links)
  {
    if links != [] {
      PlainLinks(links[1..]);
      assert '\r' !in LINK && '\r' !in "]]\n" && '\r' !in HEADER;
    }
  }

  // ---------------------------------------------------------------------------
  // Lengths
  // ---------------------------------------------------------------------------

  /** Matches hold characters that trimming does not remove. */
  ghost predicate Sectionlike(find: string -> Option<nat>) {
    forall s :: find(s).Some? ==>
      3 < find(s).value <= |s| && IsSpace(s[0]) && IsSpace(s[1]) && !IsSpace(s[2])
  }

  lemma SectionsAreSectionlike()
    ensures Sectionlike(SectionLength)
  {
    forall s | SectionLength(s).Some?
      ensures 3 < SectionLength(s).value <= |s| && IsSpace(s[0]) && IsSpace(s[1]) && !IsSpace(s[2])
    {
      assert s[..13] == HEADER && s[0] == s[..13][0] && s[1] == s[..13][1] && s[2] == s[..13][2];
    }
  }

  function End(s: string): nat { |TrimEnd(s)| }

  function Span(s: string): nat { |Strip(s)| }

  lemma EndCons(c: char, s: string)
    ensures End([c] + s) == if End(s) > 0 then End(s) + 1 else if IsSpace(c) then 0 else 1
  {
    TrimEndConcat([c], s);
    assert [c][..0] == "";
  }

  lemma SpanCons(c: char, s: string)
    ensures Span([c] + s) == if IsSpace(c) then Span(s) else End([c] + s)
  {
    assert ([c] + s)[1..] == s;
  }

  lemma {:induction false} SpanBelowEnd(s: string)
    ensures Span(s) <= End(s)
  {
    if s != "" {
      SpanBelowEnd(s[1..]);
      SpanCons(s[0], s[1..]);
      EndCons(s[0], s[1..]);
      assert s == [s[0]] + s[1..];
    }
  }

  lemma EndOfRest(s: string, n: nat)
    requires 3 < n <= |s| && IsSpace(s[0]) && IsSpace(s[1]) && !IsSpace(s[2])
    ensures Span(s) == End(s) - 2 && End(s) >= 3
    ensures End(s[n..]) < Span(s) && (End(s[n..]) > 0 ==> End(s) == n + End(s[n..]))
  {
    assert s == s[..n] + s[n..];
    TrimEndConcat(s[..n], s[n..]);
    var a, b, c := s[1..], s[2..], s[3..];
    assert s == [s[0]] + a && a == [s[1]] + b && b == [s[2]] + c;
    SpanCons(s[0], a);
    SpanCons(s[1], b);
    SpanCons(s[2], c);
    EndCons(s[0], a);
    EndCons(s[1], b);
    EndCons(s[2], c);
  }

  /** Removing matches never lengthens what trimming leaves, and shortens it if there is one. */
  lemma {:induction false} RemovedShrinks(find: string -> Option<nat>, s: string)
    requires Sectionlike(find)
    ensures End(Removed(find, s)) <= End(s) && Span(Removed(find, s)) <= Span(s)
    ensures Occurs(find, s) ==> End(Removed(find, s)) < End(s) && Span(Removed(find, s)) < Span(s)
    decreases |s|
  {
    if s != "" && find(s).Some? {
      var n := find(s).value;
      EndOfRest(s, n);
      RemovedShrinks(find, s[n..]);
      SpanBelowEnd(Removed(find, s[n..]));
    } else if s != "" {
      var rest, less := s[1..], Removed(find, s[1..]);
      RemovedShrinks(find, rest);
      assert s == [s[0]] + rest;
      EndCons(s[0], rest);
      EndCons(s[0], less);
      SpanCons(s[0], rest);
      SpanCons(s[0], less);
    }
  }

  lemma SpanOfTrimmed(s: string)
    ensures Span(TrimEnd(s)) == Span(s) && Span(Strip(s)) == Span(s)
  {
    StripFacts(s);
    StripFacts(Strip(s));
    if Strip(s) == "" {
      var before, after := StripParts(s);
      assert White(s);
      TrimEndWhite(s);
    } else {
      var before := TrimEndParts(s);
      StripSurrounded(before, Strip(s), "");
      assert before + Strip(s) + "" == TrimEnd(s);
    }
  }

  /** The text is stored in full, whatever the links of the moment: it holds no generated
      section, as given or with its line ends translated, and no pair of line end characters. */
  predicate KeptInFull(text: string) {
    !HasSection(text) && !HasPair(Strip(text)) && !HasSection(Translated(Strip(text)))
  }

  lemma BodyWithoutLinks(text: string)
    ensures Stored(text, []) == Strip(StripSections(Translated(Strip(WithoutSections(text)))))
  {
    var less := WithoutSections(text);
    assert StripSections(text) + Links([]) == TrimEnd(less);
    StripTranslated(TrimEnd(less));
    if Strip(less) == "" {
      var before, after := StripParts(less);
      TrimEndWhite(less);
    } else {
      var before := TrimEndParts(less);
      StripSurrounded(before, Strip(less), "");
      assert before + Strip(less) + "" == TrimEnd(less);
    }
  }

  /** Without links at the moment, a text that is not kept in full is stored shorter. */
  lemma StoredShorter(text: string)
    ensures |Stored(text, [])| <= |Strip(text)|
    ensures |Stored(text, [])| >= |Strip(text)| ==> KeptInFull(text)
  {
    SectionsAreSectionlike();
    var less := WithoutSections(text);
    RemovedShrinks(SectionLength, text);
    TranslatedLength(Strip(less));
    StripTranslated(less);
    var body := Translated(Strip(less));
    SpanOfTrimmed(Translated(less));
    RemovedShrinks(SectionLength, body);
    SpanOfTrimmed(WithoutSections(body));
    BodyWithoutLinks(text);
    if |Stored(text, [])| >= |Strip(text)| {
      NothingOccurs(SectionLength, text);
    }
  }

  /** Storing a text keeps its length, whatever the links, if and only if it is kept in full;
      without carriage returns that is to say it holds no generated section. */
  lemma KeptInFullExactly(text: string)
    requires Strip(text) != ""
    ensures (forall links :: |Stored(text, links)| >= |Strip(text)|) <==> KeptInFull(text)
    ensures '\r' !in text ==> (KeptInFull(text) <==> !HasSection(text))
  {
    StoredShorter(text);
    if KeptInFull(text) {
      forall links ensures |Stored(text, links)| >= |Strip(text)| {
        StoredAsGiven(text, links);
        TranslatedLength(Strip(text));
      }
    }
    if '\r' !in text && !HasSection(text) {
      PlainKept(text);
    }
  }

  lemma PlainKept(text: string)
    requires '\r' !in text && !HasSection(text)
    ensures KeptInFull(text)
  {
    var before, after := StripParts(text);
    var y := Strip(text);
    assert text == before + (y + after);
    TranslatedPlain(y);
    LaterOccurs(SectionLength, before, y + after);
    NoSectionInside(y, after);
  }

  lemma {:induction false} LaterOccurs(find: string -> Option<nat>, x: string, y: string)
    ensures Occurs(find, y) ==> Occurs(find, x + y)
  {
    if x == "" {
      assert x + y == y;
    } else {
      assert (x + y)[1..] == x[1..] + y;
      LaterOccurs(find, x[1..], y);
    }
  }

  lemma {:induction false} NoSectionInside(e: string, w: string)
    requires White(w) && (e == "" || Solid(e)) && !HasSection(e + w)
    ensures !HasSection(e)
  {
    if e != "" {
      assert e + "" == e;
      if SectionLength(e).Some? {
        SectionAnyEnding(e, "", w);
      }
      assert (e + w)[1..] == e[1..] + w;
      NoSectionInside(e[1..], w);
    }
  }

  /** A text that is nothing but generated links is stored as nothing when the moment has none. */
  lemma LinksStoredAsNothing(links: seq<Stem>, text: string)
    requires links != [] && text == HEADER + LinkText(links)
    ensures Stored(text, []) == ""
  {
    LinksVanish(links);
    BodyWithoutLinks(text);
  }

  lemma {:induction false} TranslatedHasNoReturn(s: string)
    ensures '\r' !in Translated(s)
    decreases |s|
  {
    if s != "" {
      if s[0] == '\r' && |s| > 1 && s[1] == '\n' {
        TranslatedHasNoReturn(s[2..]);
      } else {
        TranslatedHasNoReturn(s[1..]);
      }
    }
  }

  /** An essence that storing again leaves alone. */
  predicate Settled(essence: string) {
    essence != "" && Strip(essence) == essence && '\r' !in essence && !HasSection(essence)
  }

  lemma SettledStays(essence: string, links: seq<Stem>)
    requires Settled(essence)
    ensures Stored(essence, links) == essence
  {
    TranslatedPlain(essence);
    StoredAsGiven(essence, links);
  }

  /** A text kept in full is settled once it is stored. */
  lemma KeptSettles(text: string, links: seq<Stem>)
    requires Strip(text) != "" && KeptInFull(text)
    ensures Settled(Stored(text, links)) && |Stored(text, links)| == |Strip(text)|
  {
    StoredAsGiven(text, links);
    TranslatedLength(Strip(text));
    TranslatedHasNoReturn(Strip(text));
    StripTranslated(Strip(text));
    StripFacts(text);
    StripFacts(Strip(text));
  }

  /** Generated links at the end of a settled text are stripped from it. */
  lemma LinksStrippedFromEnd(essence: string, links: seq<Stem>)
    requires Settled(essence) && links != []
    ensures Stored(essence + (HEADER + LinkText(links)), []) == essence
  {
    StripFacts(essence);
    LinksStripped(essence, links);
    assert ReadLinks(links) == HEADER + LinkText(links);
    assert essence + "" == essence;
    ClearAnyEnding(essence, ReadLinks(links), "");
    NothingRemoved(SectionLength, essence, ReadLinks(links));
    LinksVanish(links);
    BodyWithoutLinks(essence + ReadLinks(links));
    TranslatedPlain(essence);
    NothingOccurs(SectionLength, essence);
  }

  /** A generated section of one link, and nothing else. */
  const LINKS := "\n\n## Related\n- [[x]]"

  lemma LinksText()
    ensures LINKS == HEADER + LinkText(["x"])
  {
    var name: Stem := "x";
    assert [name][1..] == [];
    assert Item(name) == "- [[x]]";
  }

  lemma LinksLength()
    ensures |Strip(LINKS)| == 18
  {
    var y := "## Related\n- [[x]]";
    assert LINKS == "\n\n" + y + "";
    StripSurrounded("\n\n", y, "");
  }

  lemma LinksAreEmptied(text: string)
    requires text == LINKS
    ensures Stored(text, []) == ""
  {
    LinksText();
    LinksStoredAsNothing(["x"], text);
  }
}
