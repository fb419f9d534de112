/** What the index says of one memory, and what becomes of it when the memory is written and
    read back: `_extract_project`, `_format_index_line` and the sanitising in
    `_write_obsidian_memory` of memem/obsidian_store.py. */
module IndexLine {
  import opened PyStrings
  import opened Wrappers

  /** The fields of a memory that the index uses; `opening` is the start of its essence, and
      `active` is false for a deprecated memory. */
  datatype Card = Card(id8: string, title: string, opening: string, project: string, tags: seq<string>,
                       created: int, active: bool)

  // ---------------------------------------------------------------------------
  // Project and line
  // ---------------------------------------------------------------------------

  function UpTo(s: string, stop: char): (n: nat)
    ensures n <= |s| && (n < |s| ==> s[n] == stop) && forall i :: 0 <= i < n ==> s[i] != stop
  {
    if s == "" || s[0] == stop then 0 else 1 + UpTo(s[1..], stop)
  }

  /** The length of a leading "[...]" with something in the brackets. */
  function PrefixLength(title: string): (r: Option<nat>)
    ensures r.Some? ==> 3 <= r.value <= |title|
  {
    if title == "" || title[0] != '[' then None
    else
      var n := UpTo(title[1..], ']');
      if n > 0 && 1 + n < |title| then Some(n + 2) else None
  }

  function WithoutPrefix(title: string): string {
    match PrefixLength(title)
    case None => title
    case Some(n) => TrimStart(title[n..])
  }

  function ProjectOf(c: Card): string {
    match PrefixLength(c.title)
    case Some(n) => c.title[1..n - 1]
    case None => if c.project == "" then "general" else c.project
  }

  function Cut(s: string, n: nat): string { if |s| <= n then s else s[..n] }

  const TITLE_CAP := 120

  function TitleOf(c: Card): string {
    var title := WithoutPrefix(if c.title != "" then c.title else c.opening);
    Cut(Strip(title[..UpTo(title, '\n')]), TITLE_CAP)
  }

  function TagText(tags: seq<string>): string {
    if tags == [] then ""
    else
      var rest := TagText(tags[1..]);
      if tags[0] == "" then rest else "#" + tags[0] + (if rest == "" then "" else " " + rest)
  }

  /** The test for an id in a line. */
  function Token(id8: string): string { "(" + id8 + ")" }

  function LineOf(c: Card): string {
    var tags := TagText(c.tags);
    "- " + TitleOf(c) + " " + Token(c.id8) + if tags == "" then "" else " " + tags
  }

  predicate Contains(s: string, t: string) { exists i :: 0 <= i <= |s| && t <= s[i..] }

  lemma ContainsAt(a: string, t: string, b: string)
    ensures Contains(a + t + b, t)
  {
    var s := a + t + b;
    assert s[|a|..] == t + b;
  }

  lemma Regroup(a: string, x: string, t: string, y: string, b: string)
    ensures a + (x + t + y) + b == a + x + t + (y + b)
  {
  }

  lemma ContainsMore(a: string, s: string, b: string, t: string)
    requires Contains(s, t)
    ensures Contains(a + s + b, t)
  {
    var i :| 0 <= i <= |s| && t <= s[i..];
    var x, y := s[..i], s[i + |t|..];
    assert s == x + t + y;
    Regroup(a, x, t, y, b);
    ContainsAt(a + x, t, y + b);
  }

  /** A memory's line carries its own id. */
  lemma OwnLine(c: Card)
    ensures Contains(LineOf(c), Token(c.id8))
  {
    ContainsAt("- " + TitleOf(c) + " ", Token(c.id8), if TagText(c.tags) == "" then "" else " " + TagText(c.tags));
  }

  /** Two texts with a blank between them, unless one of them is empty. */
  function Spaced(a: string, b: string): string {
    if a == "" then b else if b == "" then a else a + " " + b
  }

  function Tagged(t: string): string { if t == "" then "" else "#" + t }

  lemma Regrouped(a: string, s: string, b: string, t: string, c: string)
    ensures a + s + (b + t + c) == a + s + b + t + c
  {
  }

  lemma SpacedRight(a: string, b: string, c: string)
    ensures Spaced(a, Spaced(b, c)) == Spaced(Spaced(a, b), c)
  {
    Regrouped(a, " ", b, " ", c);
  }

  lemma FirstTag(t: string, rest: seq<string>)
    ensures TagText([t] + rest) == Spaced(Tagged(t), TagText(rest))
  {
    assert ([t] + rest)[1..] == rest;
    if t != "" && TagText(rest) != "" {
      Regrouped("#", t, "", " ", TagText(rest));
    }
  }

  /** Every tag that is not empty stands in the list after a number sign, in the order given. */
  lemma {:induction false} TagsInOrder(before: seq<string>, t: string, after: seq<string>)
    ensures TagText(before + [t] + after)
            == Spaced(TagText(before), Spaced(if t == "" then "" else "#" + t, TagText(after)))
  {
    FirstTag(t, after);
    if before == [] {
      assert before + [t] + after == [t] + after;
    } else {
      var head, tail := before[0], before[1..];
      assert before + [t] + after == [head] + (tail + [t] + after) && before == [head] + tail;
      TagsInOrder(tail, t, after);
      FirstTag(head, tail + [t] + after);
      FirstTag(head, tail);
      SpacedRight(Tagged(head), TagText(tail), Spaced(Tagged(t), TagText(after)));
    }
  }

  lemma ContainsRight(a: string, s: string, t: string)
    requires Contains(s, t)
    ensures Contains(a + s, t)
  {
    var i :| 0 <= i <= |s| && t <= s[i..];
    assert (a + s)[|a| + i..] == s[i..];
  }

  lemma ContainsLeft(s: string, b: string, t: string)
    requires Contains(s, t)
    ensures Contains(s + b, t)
  {
    var i :| 0 <= i <= |s| && t <= s[i..];
    assert (s + b)[i..] == s[i..] + b;
  }

  lemma InSpaced(a: string, t: string, b: string)
    requires t != ""
    ensures Contains(Spaced(a, Spaced(t, b)), t)
  {
    assert t <= t[0..] && Contains(t, t);
    ContainsLeft(t, " ", t);
    ContainsLeft(t + " ", b, t);
    ContainsRight(a + " ", Spaced(t, b), t);
  }

  /** And every such tag stands in the line. */
  lemma TagInLine(c: Card, i: nat)
    requires i < |c.tags| && c.tags[i] != ""
    ensures Contains(LineOf(c), "#" + c.tags[i])
  {
    var before, t, after := c.tags[..i], c.tags[i], c.tags[i + 1..];
    assert c.tags == before + [t] + after;
    TagsInOrder(before, t, after);
    InSpaced(TagText(before), "#" + t, TagText(after));
    TagTextInLine(c, "#" + t);
  }

  lemma TagTextInLine(c: Card, t: string)
    requires t != "" && Contains(TagText(c.tags), t)
    ensures Contains(LineOf(c), t)
  {
    ContainsRight(" ", TagText(c.tags), t);
    ContainsRight("- " + TitleOf(c) + " " + Token(c.id8), " " + TagText(c.tags), t);
  }

  lemma UpToNone(s: string, stop: char)
    requires stop !in s
    ensures UpTo(s, stop) == |s|
  {
  }

  /** A title that the line shows in full. */
  predicate PlainTitle(c: Card) {
    c.title != "" && PrefixLength(c.title).None? && '\n' !in c.title && Trimmed(c.title) && |c.title| <= TITLE_CAP
  }

  lemma PlainTitleShown(c: Card)
    requires PlainTitle(c)
    ensures TitleOf(c) == c.title
  {
    UpToNone(c.title, '\n');
    assert c.title[..|c.title|] == c.title;
    StripFacts(c.title);
  }

  function Ending(c: Card): string {
    var tags := TagText(c.tags);
    " " + Token(c.id8) + if tags == "" then "" else " " + tags
  }

  lemma LineParts(c: Card)
    ensures LineOf(c) == "- " + TitleOf(c) + Ending(c)
  {
  }

  /** What stands in such a title stands in the line. */
  lemma TitleInLine(c: Card, t: string)
    requires PlainTitle(c) && Contains(c.title, t)
    ensures Contains(LineOf(c), t)
  {
    PlainTitleShown(c);
    LineParts(c);
    ContainsMore("- ", c.title, Ending(c), t);
  }

  // ---------------------------------------------------------------------------
  // Writing and reading back
  // ---------------------------------------------------------------------------

  predicate IsDropped(c: char) { c == '[' || c == ']' || c == ',' }

  predicate IsLineEnd(c: char) { c == '\r' || c == '\n' }

  function Spared(s: string): string {
    if s == "" then ""
    else if IsDropped(s[0]) then Spared(s[1..])
    else [if IsLineEnd(s[0]) then ' ' else s[0]] + Spared(s[1..])
  }

  function SafeTag(s: string): string { Strip(Spared(s)) }

  function SafeTags(tags: seq<string>): seq<string> {
    if tags == [] then []
    else if SafeTag(tags[0]) == "" then SafeTags(tags[1..])
    else [SafeTag(tags[0])] + SafeTags(tags[1..])
  }

  /** The memory as its file gives it back. `stem` is the name of the file without its suffix,
      and `firstLine` what stands in for a title that is missing or equal to it. */
  function StoredCard(c: Card, stem: string, firstLine: string): Card {
    var title := WithoutPrefix(c.title);
    c.(title := if title == "" || title == stem then firstLine else title,
       project := if SafeTag(c.project) == "" then "general" else SafeTag(c.project),
       tags := SafeTags(c.tags))
  }

  predicate Unsafe(c: char) { IsDropped(c) || IsLineEnd(c) }

  predicate HasUnsafe(s: string) { exists i :: 0 <= i < |s| && Unsafe(s[i]) }

  lemma {:induction false} SparedFacts(s: string)
    ensures !HasUnsafe(Spared(s)) && |Spared(s)| <= |s|
    ensures Spared(s) == s <==> !HasUnsafe(s)
  {
    if s != "" {
      var rest := s[1..];
      SparedFacts(rest);
      if i :| 0 <= i < |rest| && Unsafe(rest[i]) {
        assert Unsafe(s[i + 1]);
      }
      if i :| 0 <= i < |s| && Unsafe(s[i]) {
        assert i > 0 ==> Unsafe(rest[i - 1]);
      }
      assert s == [s[0]] + rest;
    }
  }

  lemma {:induction false} TrimStartPart(s: string)
    ensures |TrimStart(s)| <= |s| && TrimStart(s) == s[|s| - |TrimStart(s)|..]
  {
    if s != "" && IsSpace(s[0]) {
      TrimStartPart(s[1..]);
    }
  }

  lemma StripPart(s: string) returns (n: nat)
    ensures n + |Strip(s)| <= |s| && Strip(s) == s[n..n + |Strip(s)|]
  {
    TrimStartPart(s);
    TrimEndFacts(TrimStart(s));
    n := |s| - |TrimStart(s)|;
  }

  lemma StripIdentity(s: string)
    ensures Strip(s) == s <==> Trimmed(s)
  {
    StripFacts(s);
  }

  /** The sanitiser leaves a value alone if and only if it is trimmed and holds no bracket, comma
      or line end; nothing it returns does. */
  lemma SafeTagExactly(s: string)
    ensures SafeTag(s) == s <==> Trimmed(s) && !HasUnsafe(s)
    ensures !HasUnsafe(SafeTag(s))
  {
    SparedFacts(s);
    StripFacts(Spared(s));
    StripIdentity(s);
    var n := StripPart(Spared(s));
    forall i | 0 <= i < |SafeTag(s)| ensures !Unsafe(SafeTag(s)[i]) {
      assert SafeTag(s)[i] == Spared(s)[n + i];
    }
  }

  lemma {:induction false} SafeTagsIdentity(tags: seq<string>)
    requires forall i :: 0 <= i < |tags| ==> tags[i] != "" && SafeTag(tags[i]) == tags[i]
    ensures SafeTags(tags) == tags
  {
    if tags != [] {
      SafeTagsIdentity(tags[1..]);
    }
  }

  /** A memory whose title has no bracketed prefix and whose project and tags the sanitiser leaves
      alone is read back as it was written. */
  lemma StoredAsWritten(c: Card, stem: string, firstLine: string)
    requires PrefixLength(c.title).None? && c.title != "" && c.title != stem
    requires c.project != "" && SafeTag(c.project) == c.project
    requires forall i :: 0 <= i < |c.tags| ==> c.tags[i] != "" && SafeTag(c.tags[i]) == c.tags[i]
    ensures StoredCard(c, stem, firstLine) == c
  {
    SafeTagsIdentity(c.tags);
  }
}
