/** Completion of truncated JSON: `_repair_json` and the bracket-depth fallback
    of `_extract_json_string` in memem/mining.py. */
module JsonRepair {
  import opened Wrappers

  // ---------------------------------------------------------------------------
  // The scanner
  // ---------------------------------------------------------------------------

  /** What the scanner remembers between characters: the closers still owed (innermost
      last), and whether it stands inside a string literal, just after a backslash. */
  datatype Scan = Scan(stack: string, inString: bool, escape: bool)

  const HOME := Scan("", false, false)

  predicate IsOpener(c: char) { c == '{' || c == '[' }

  predicate IsCloser(c: char) { c == '}' || c == ']' }

  function CloserOf(c: char): char { if c == '{' then '}' else ']' }

  function Advance(st: Scan, c: char): Scan {
    if st.escape then st.(escape := false)
    else if st.inString then
      if c == '\\' then st.(escape := true)
      else if c == '"' then st.(inString := false)
      else st
    else if c == '"' then st.(inString := true)
    else if IsOpener(c) then st.(stack := st.stack + [CloserOf(c)])
    else if IsCloser(c) && st.stack != [] && st.stack[|st.stack| - 1] == c then
      st.(stack := st.stack[..|st.stack| - 1])
    else st
  }

  function ScanFrom(st: Scan, s: string): Scan
    decreases |s|
  {
    if s == [] then st else ScanFrom(Advance(st, s[0]), s[1..])
  }

  function Reversed(s: string): (r: string)
    ensures |r| == |s|
  {
    if s == [] then [] else Reversed(s[1..]) + [s[0]]
  }

  function Closers(st: Scan): string {
    (if st.inString then "\"" else "") + Reversed(st.stack)
  }

  function Repair(s: string): string { s + Closers(ScanFrom(HOME, s)) }

  /** The text stops right after a backslash inside a string literal. */
  predicate Dangling(s: string) { ScanFrom(HOME, s).escape }

  /** The loop of the source: one pass over the characters, then the closers. */
  method RepairJson(s: string) returns (r: string)
    ensures r == Repair(s)
  {
    var stack, inString, escape := "", false, false;
    var i := 0;
    while i < |s|
      invariant 0 <= i <= |s|
      invariant Scan(stack, inString, escape) == ScanFrom(HOME, s[..i])
    {
      ScanSnoc(HOME, s[..i], s[i]);
      assert s[..i + 1] == s[..i] + [s[i]];
      var ch := s[i];
      i := i + 1;
      if escape {
        escape := false;
        continue;
      }
      if inString {
        if ch == '\\' {
          escape := true;
        } else if ch == '"' {
          inString := false;
        }
        continue;
      }
      if ch == '"' {
        inString := true;
        continue;
      }
      if IsOpener(ch) {
        stack := stack + [CloserOf(ch)];
      } else if IsCloser(ch) {
        if stack != [] && stack[|stack| - 1] == ch {
          stack := stack[..|stack| - 1];
        }
      }
    }
    assert s[..i] == s;
    var closers := "";
    if inString {
      closers := "\"";
    }
    r := s + (closers + Reversed(stack));
  }

  lemma {:induction false} ScanConcat(st: Scan, s: string, t: string)
    ensures ScanFrom(st, s + t) == ScanFrom(ScanFrom(st, s), t)
    decreases |s|
  {
    if s == [] {
      assert s + t == t;
    } else {
      assert (s + t)[1..] == s[1..] + t;
      ScanConcat(Advance(st, s[0]), s[1..], t);
    }
  }

  lemma ScanSnoc(st: Scan, s: string, c: char)
    ensures ScanFrom(st, s + [c]) == Advance(ScanFrom(st, s), c)
  {
    ScanConcat(st, s, [c]);
    assert [c][1..] == [];
  }

  lemma {:induction false} ReversedSnoc(s: string, c: char)
    ensures Reversed(s + [c]) == [c] + Reversed(s)
  {
    if s == [] {
      assert s + [c] == [c];
      assert Reversed([c][1..]) == [];
    } else {
      assert (s + [c])[1..] == s[1..] + [c];
      ReversedSnoc(s[1..], c);
    }
  }

  // ---------------------------------------------------------------------------
  // Repair closes what it opened, exactly when no escape dangles
  // ---------------------------------------------------------------------------

  /** Every state the scanner can reach from home. */
  predicate Reachable(st: Scan) {
    && (st.escape ==> st.inString)
    && forall i :: 0 <= i < |st.stack| ==> IsCloser(st.stack[i])
  }

  lemma {:induction false} ScanReachable(st: Scan, s: string)
    requires Reachable(st)
    ensures Reachable(ScanFrom(st, s))
    decreases |s|
  {
    if s != [] {
      ScanReachable(Advance(st, s[0]), s[1..]);
    }
  }

  lemma {:induction false} ClosersPopAll(stack: string)
    requires Reachable(Scan(stack, false, false))
    ensures ScanFrom(Scan(stack, false, false), Reversed(stack)) == HOME
    decreases |stack|
  {
    if stack != [] {
      var top, rest := stack[|stack| - 1], stack[..|stack| - 1];
      assert stack == rest + [top];
      ReversedSnoc(rest, top);
      assert ([top] + Reversed(rest))[1..] == Reversed(rest);
      ClosersPopAll(rest);
    }
  }

  /** Closers never contain a quote, so a literal left open swallows them all. */
  lemma {:induction false} ClosersSwallowed(st: Scan, t: string)
    requires st.inString && !st.escape
    requires forall i :: 0 <= i < |t| ==> IsCloser(t[i])
    ensures ScanFrom(st, t) == st
    decreases |t|
  {
    if t != [] {
      ClosersSwallowed(st, t[1..]);
    }
  }

  lemma {:induction false} ReversedClosers(s: string)
    requires forall i :: 0 <= i < |s| ==> IsCloser(s[i])
    ensures forall i :: 0 <= i < |s| ==> IsCloser(Reversed(s)[i])
  {
    if s != [] {
      ReversedClosers(s[1..]);
    }
  }

  lemma ScanOfClosers(st: Scan)
    requires Reachable(st)
    ensures ScanFrom(st, Closers(st)) == if st.escape then st.(escape := false) else HOME
  {
    if st.inString {
      ScanConcat(st, "\"", Reversed(st.stack));
      assert "\""[1..] == "";
      assert ScanFrom(st, "\"") == Advance(st, '"');
      if st.escape {
        ReversedClosers(st.stack);
        ClosersSwallowed(st.(escape := false), Reversed(st.stack));
      } else {
        ClosersPopAll(st.stack);
      }
    } else {
      assert Closers(st) == Reversed(st.stack);
      ClosersPopAll(st.stack);
    }
  }

  /** Rescanning repaired text ends outside strings with nothing owed if and only if
      the input does not stop in the middle of an escape sequence. */
  lemma RepairCloses(s: string)
    ensures s <= Repair(s)
    ensures ScanFrom(HOME, Repair(s)) == HOME <==> !Dangling(s)
  {
    var st := ScanFrom(HOME, s);
    ScanReachable(HOME, s);
    ScanConcat(HOME, s, Closers(st));
    ScanOfClosers(st);
  }

  /** Repairing once is enough exactly when no escape dangles; twice always is. */
  lemma RepairIdempotent(s: string)
    ensures Repair(Repair(s)) == Repair(s) <==> !Dangling(s)
    ensures ScanFrom(HOME, Repair(Repair(s))) == HOME
  {
    RepairCloses(s);
    RepairCloses(Repair(s));
    var st := ScanFrom(HOME, s);
    ScanReachable(HOME, s);
    ScanConcat(HOME, s, Closers(st));
    ScanOfClosers(st);
  }

  // ---------------------------------------------------------------------------
  // No other completion is as short
  // ---------------------------------------------------------------------------

  /** How many characters the scanner is away from home, at the least. */
  function Debt(st: Scan): nat {
    |st.stack| + (if st.inString then 1 else 0) + (if st.escape then 1 else 0)
  }

  lemma {:induction false} DebtBound(st: Scan, t: string)
    requires Reachable(st)
    ensures Debt(ScanFrom(st, t)) + |t| >= Debt(st)
    decreases |t|
  {
    if t != [] {
      DebtBound(Advance(st, t[0]), t[1..]);
    }
  }

  lemma {:induction false} OnlyClosersPayDebt(st: Scan, t: string)
    requires Reachable(st) && !st.escape
    requires ScanFrom(st, t) == HOME && |t| == Debt(st)
    ensures t == Closers(st)
    decreases |t|
  {
    if t != [] {
      var next := Advance(st, t[0]);
      DebtBound(next, t[1..]);
      assert Debt(next) == Debt(st) - 1;
      OnlyClosersPayDebt(next, t[1..]);
      FirstPayment(st, t[0]);
      assert t == [t[0]] + t[1..];
    }
  }

  /** A character that lowers the debt is the first closer. */
  lemma FirstPayment(st: Scan, c: char)
    requires Reachable(st) && !st.escape && Debt(Advance(st, c)) == Debt(st) - 1
    ensures Closers(st) == [c] + Closers(Advance(st, c))
  {
    if st.inString {
      assert Closers(st) == "\"" + Reversed(st.stack);
    } else {
      var rest := st.stack[..|st.stack| - 1];
      assert st.stack == rest + [c];
      ReversedSnoc(rest, c);
    }
  }

  /** The appended closers are the one shortest completion that brings the scanner home. */
  lemma RepairIsUniqueShortest(s: string, t: string)
    requires ScanFrom(HOME, s + t) == HOME
    ensures |s + t| >= |Repair(s)|
    ensures !Dangling(s) && |s + t| == |Repair(s)| ==> s + t == Repair(s)
    ensures Dangling(s) ==> |s + t| > |Repair(s)|
  {
    var st := ScanFrom(HOME, s);
    ScanReachable(HOME, s);
    ScanConcat(HOME, s, t);
    DebtBound(st, t);
    if !st.escape && |t| == Debt(st) {
      OnlyClosersPayDebt(st, t);
    }
  }

  // ---------------------------------------------------------------------------
  // Balanced text, defined without the scanner
  // ---------------------------------------------------------------------------

  /** The inside of a string literal up to and including its closing quote. */
  datatype Literal = EndQuote | Raw(c: char, rest: Literal) | Escaped(c: char, rest: Literal)

  /** A text whose brackets and string literals all match. */
  datatype Doc =
    | Empty
    | Plain(c: char, rest: Doc)
    | Quoted(body: Literal, rest: Doc)
    | Nested(opener: char, inner: Doc, rest: Doc)

  predicate ValidLiteral(l: Literal) {
    match l
    case EndQuote => true
    case Raw(c, rest) => c != '"' && c != '\\' && ValidLiteral(rest)
    case Escaped(_, rest) => ValidLiteral(rest)
  }

  predicate ValidDoc(d: Doc) {
    match d
    case Empty => true
    case Plain(c, rest) => c != '"' && c != '{' && c != '[' && c != '}' && c != ']' && ValidDoc(rest)
    case Quoted(body, rest) => ValidLiteral(body) && ValidDoc(rest)
    case Nested(opener, inner, rest) => (opener == '{' || opener == '[') && ValidDoc(inner) && ValidDoc(rest)
  }

  function LiteralText(l: Literal): string {
    match l
    case EndQuote => "\""
    case Raw(c, rest) => [c] + LiteralText(rest)
    case Escaped(c, rest) => ['\\', c] + LiteralText(rest)
  }

  function Text(d: Doc): string {
    match d
    case Empty => ""
    case Plain(c, rest) => [c] + Text(rest)
    case Quoted(body, rest) => "\"" + LiteralText(body) + Text(rest)
    case Nested(opener, inner, rest) =>
      [opener] + Text(inner) + (if opener == '{' then "}" else "]") + Text(rest)
  }

  ghost predicate Balanced(s: string) {
    exists d :: ValidDoc(d) && Text(d) == s
  }

  ghost predicate PrefixOfBalanced(s: string) {
    exists d :: ValidDoc(d) && s <= Text(d)
  }

  lemma ScanCons(st: Scan, c: char, s: string)
    ensures ScanFrom(st, [c] + s) == ScanFrom(Advance(st, c), s)
  {
    assert ([c] + s)[1..] == s;
  }

  lemma {:induction false} LiteralScansOut(l: Literal, stack: string)
    requires ValidLiteral(l)
    ensures ScanFrom(Scan(stack, true, false), LiteralText(l)) == Scan(stack, false, false)
  {
    var st := Scan(stack, true, false);
    match l
    case EndQuote =>
      ScanCons(st, '"', "");
      assert "\"" == ['"'] + "";
    case Raw(c, rest) =>
      ScanCons(st, c, LiteralText(rest));
      LiteralScansOut(rest, stack);
    case Escaped(c, rest) =>
      ScanCons(st, '\\', [c] + LiteralText(rest));
      ScanCons(st.(escape := true), c, LiteralText(rest));
      assert LiteralText(l) == ['\\'] + ([c] + LiteralText(rest));
      LiteralScansOut(rest, stack);
  }

  lemma ScanLiteral(body: string, t: string, stack: string)
    requires ScanFrom(Scan(stack, true, false), body) == Scan(stack, false, false)
    ensures ScanFrom(Scan(stack, false, false), "\"" + body + t) == ScanFrom(Scan(stack, false, false), t)
  {
    assert "\"" + body + t == ['"'] + (body + t);
    ScanCons(Scan(stack, false, false), '"', body + t);
    ScanConcat(Scan(stack, true, false), body, t);
  }

  lemma {:induction false} DocScansHome(d: Doc, stack: string)
    requires ValidDoc(d)
    ensures ScanFrom(Scan(stack, false, false), Text(d)) == Scan(stack, false, false)
    decreases d
  {
    var st := Scan(stack, false, false);
    match d
    case Empty =>
    case Plain(c, rest) =>
      ScanCons(st, c, Text(rest));
      DocScansHome(rest, stack);
    case Quoted(body, rest) =>
      LiteralScansOut(body, stack);
      ScanLiteral(LiteralText(body), Text(rest), stack);
      DocScansHome(rest, stack);
    case Nested(opener, inner, rest) =>
      DocScansHome(inner, stack + [CloserOf(opener)]);
      ScanGroup(opener, Text(inner), Text(rest), stack);
      DocScansHome(rest, stack);
  }

  /** Repair leaves balanced text as it is. */
  lemma RepairKeepsBalanced(s: string)
    requires Balanced(s)
    ensures Repair(s) == s
  {
    var d :| ValidDoc(d) && Text(d) == s;
    DocScansHome(d, "");
  }

  /** The literal that completes the first n characters of `l`. */
  ghost function CutLiteral(l: Literal, n: nat): Literal {
    if n == 0 then EndQuote
    else match l
      case EndQuote => EndQuote
      case Raw(c, rest) => Raw(c, CutLiteral(rest, n - 1))
      case Escaped(c, rest) => if n == 1 then EndQuote else Escaped(c, CutLiteral(rest, n - 2))
  }

  /** The document that completes the first n characters of `d`. */
  ghost function CutDoc(d: Doc, n: nat): Doc
    decreases d
  {
    if n == 0 then Empty
    else match d
      case Empty => Empty
      case Plain(c, rest) => Plain(c, CutDoc(rest, n - 1))
      case Quoted(body, rest) =>
        if n <= 1 + |LiteralText(body)| then Quoted(CutLiteral(body, n - 1), Empty)
        else Quoted(body, CutDoc(rest, n - 1 - |LiteralText(body)|))
      case Nested(opener, inner, rest) =>
        if n <= 1 + |Text(inner)| then Nested(opener, CutDoc(inner, n - 1), Empty)
        else Nested(opener, inner, CutDoc(rest, n - 2 - |Text(inner)|))
  }

  lemma ScanTake(st: Scan, c: char, s: string, n: nat)
    requires 0 < n <= 1 + |s|
    ensures ([c] + s)[..n] == [c] + s[..n - 1]
    ensures ScanFrom(st, ([c] + s)[..n]) == ScanFrom(Advance(st, c), s[..n - 1])
  {
    ScanCons(st, c, s[..n - 1]);
  }

  lemma {:induction false} CutLiteralCompletes(l: Literal, n: nat, stack: string)
    requires ValidLiteral(l) && n <= |LiteralText(l)|
    requires !ScanFrom(Scan(stack, true, false), LiteralText(l)[..n]).escape
    ensures ValidLiteral(CutLiteral(l, n))
    ensures var st := ScanFrom(Scan(stack, true, false), LiteralText(l)[..n]);
            && st.stack == stack
            && LiteralText(CutLiteral(l, n)) == LiteralText(l)[..n] + (if st.inString then "\"" else "")
    decreases l
  {
    var st := Scan(stack, true, false);
    if n > 0 {
      match l
      case EndQuote =>
        LiteralScansOut(l, stack);
        assert LiteralText(l)[..n] == LiteralText(l);
      case Raw(c, rest) =>
        ScanTake(st, c, LiteralText(rest), n);
        CutLiteralCompletes(rest, n - 1, stack);
      case Escaped(c, rest) =>
        assert LiteralText(l) == ['\\'] + ([c] + LiteralText(rest));
        ScanTake(st, '\\', [c] + LiteralText(rest), n);
        if n > 1 {
          ScanTake(st.(escape := true), c, LiteralText(rest), n - 1);
          CutLiteralCompletes(rest, n - 2, stack);
        }
    }
  }

  /** The cut document owes `above` on top of the closers owed before it. */
  ghost predicate Completes(d: Doc, n: nat, stack: string, above: string)
    requires n <= |Text(d)|
  {
    var st := ScanFrom(Scan(stack, false, false), Text(d)[..n]);
    && ValidDoc(CutDoc(d, n))
    && st.stack == stack + above
    && Text(CutDoc(d, n)) == Text(d)[..n] + Closers(st.(stack := above))
  }

  lemma {:induction false} CutDocCompletes(d: Doc, n: nat, stack: string) returns (above: string)
    requires ValidDoc(d) && n <= |Text(d)|
    requires !ScanFrom(Scan(stack, false, false), Text(d)[..n]).escape
    ensures Completes(d, n, stack, above)
    decreases d, 1
  {
    above := "";
    if n > 0 {
      match d
      case Empty =>
      case Plain(c, rest) =>
        above := CutPlain(d, n, stack);
      case Quoted(body, rest) =>
        above := CutQuoted(d, n, stack);
      case Nested(opener, inner, rest) =>
        if n <= 1 + |Text(inner)| {
          above := CutInside(d, n, stack);
        } else {
          above := CutAfter(d, n, stack);
        }
    }
  }

  lemma {:induction false} CutPlain(d: Doc, n: nat, stack: string) returns (above: string)
    requires ValidDoc(d) && d.Plain? && 0 < n <= |Text(d)|
    requires !ScanFrom(Scan(stack, false, false), Text(d)[..n]).escape
    ensures Completes(d, n, stack, above)
    decreases d, 0
  {
    ScanTake(Scan(stack, false, false), d.c, Text(d.rest), n);
    above := CutDocCompletes(d.rest, n - 1, stack);
    var st := ScanFrom(Scan(stack, false, false), Text(d)[..n]);
    assert Text(CutDoc(d, n)) == [d.c] + Text(CutDoc(d.rest, n - 1));
    var owed := Closers(st.(stack := above));
    assert [d.c] + (Text(d.rest)[..n - 1] + owed) == Text(d)[..n] + owed;
  }

  /** The cut falls inside the literal, or after it. */
  lemma {:induction false} CutQuoted(d: Doc, n: nat, stack: string) returns (above: string)
    requires ValidDoc(d) && d.Quoted? && 0 < n <= |Text(d)|
    requires !ScanFrom(Scan(stack, false, false), Text(d)[..n]).escape
    ensures Completes(d, n, stack, above)
    decreases d, 0
  {
    var body := LiteralText(d.body);
    if n <= 1 + |body| {
      ScanInLiteral(d, n, stack);
      CutLiteralCompletes(d.body, n - 1, stack);
      above := "";
      assert Text(CutDoc(d, n)) == "\"" + LiteralText(CutLiteral(d.body, n - 1)) + "";
      assert Reversed(above) == "";
    } else {
      ScanPastLiteral(d, n, stack);
      above := CutDocCompletes(d.rest, n - 1 - |body|, stack);
      assert Text(CutDoc(d, n)) == ("\"" + body) + Text(CutDoc(d.rest, n - 1 - |body|));
    }
  }

  lemma ScanInLiteral(d: Doc, n: nat, stack: string)
    requires d.Quoted? && 0 < n <= 1 + |LiteralText(d.body)|
    ensures n <= |Text(d)|
    ensures Text(d)[..n] == "\"" + LiteralText(d.body)[..n - 1]
    ensures ScanFrom(Scan(stack, false, false), Text(d)[..n])
         == ScanFrom(Scan(stack, true, false), LiteralText(d.body)[..n - 1])
  {
    var body := LiteralText(d.body);
    assert Text(d)[..n] == ['"'] + body[..n - 1];
    ScanCons(Scan(stack, false, false), '"', body[..n - 1]);
  }

  lemma ScanPastLiteral(d: Doc, n: nat, stack: string)
    requires ValidDoc(d) && d.Quoted? && 1 + |LiteralText(d.body)| < n <= |Text(d)|
    ensures var m := n - 1 - |LiteralText(d.body)|;
            && m <= |Text(d.rest)|
            && Text(d)[..n] == "\"" + LiteralText(d.body) + Text(d.rest)[..m]
            && ScanFrom(Scan(stack, false, false), Text(d)[..n])
               == ScanFrom(Scan(stack, false, false), Text(d.rest)[..m])
  {
    var body := LiteralText(d.body);
    var m := n - 1 - |body|;
    assert Text(d)[..n] == "\"" + body + Text(d.rest)[..m];
    LiteralScansOut(d.body, stack);
    ScanLiteral(body, Text(d.rest)[..m], stack);
  }

  /** The cut falls inside the brackets. */
  lemma {:induction false} CutInside(d: Doc, n: nat, stack: string) returns (above: string)
    requires ValidDoc(d) && d.Nested? && 0 < n <= 1 + |Text(d.inner)|
    requires n <= |Text(d)| && !ScanFrom(Scan(stack, false, false), Text(d)[..n]).escape
    ensures Completes(d, n, stack, above)
    decreases d, 0
  {
    var closer := CloserOf(d.opener);
    ScanInside(d, n, stack);
    var owed := CutDocCompletes(d.inner, n - 1, stack + [closer]);
    above := [closer] + owed;
    assert above[1..] == owed;
    assert (stack + [closer]) + owed == stack + above;
    var st := ScanFrom(Scan(stack, false, false), Text(d)[..n]);
    RegroupText(d.opener, Text(d.inner)[..n - 1], if st.inString then "\"" else "", Reversed(owed), closer);
    TextInside(d, n);
  }

  lemma TextInside(d: Doc, n: nat)
    requires d.Nested? && 0 < n <= 1 + |Text(d.inner)|
    ensures Text(CutDoc(d, n)) == [d.opener] + Text(CutDoc(d.inner, n - 1)) + [CloserOf(d.opener)]
  {
    assert Text(Empty) == "";
  }

  lemma RegroupText(opener: char, cut: string, quote: string, rest: string, closer: char)
    ensures [opener] + (cut + (quote + rest)) + [closer] == ([opener] + cut) + (quote + (rest + [closer]))
  {
  }

  lemma ScanInside(d: Doc, n: nat, stack: string)
    requires d.Nested? && IsOpener(d.opener) && 0 < n <= 1 + |Text(d.inner)|
    ensures n <= |Text(d)|
    ensures Text(d)[..n] == [d.opener] + Text(d.inner)[..n - 1]
    ensures ScanFrom(Scan(stack, false, false), Text(d)[..n])
         == ScanFrom(Scan(stack + [CloserOf(d.opener)], false, false), Text(d.inner)[..n - 1])
  {
    ScanCons(Scan(stack, false, false), d.opener, Text(d.inner)[..n - 1]);
  }

  /** The cut falls after the closing bracket. */
  lemma {:induction false} CutAfter(d: Doc, n: nat, stack: string) returns (above: string)
    requires ValidDoc(d) && d.Nested? && 1 + |Text(d.inner)| < n <= |Text(d)|
    requires !ScanFrom(Scan(stack, false, false), Text(d)[..n]).escape
    ensures Completes(d, n, stack, above)
    decreases d, 0
  {
    var m := n - 2 - |Text(d.inner)|;
    ScanPastGroup(d, n, stack);
    above := CutDocCompletes(d.rest, m, stack);
    var group := [d.opener] + Text(d.inner) + [CloserOf(d.opener)];
    assert Text(CutDoc(d, n)) == group + Text(CutDoc(d.rest, m));
  }

  lemma ScanPastGroup(d: Doc, n: nat, stack: string)
    requires ValidDoc(d) && d.Nested? && 1 + |Text(d.inner)| < n <= |Text(d)|
    ensures var m := n - 2 - |Text(d.inner)|;
            && m <= |Text(d.rest)|
            && Text(d)[..n] == [d.opener] + Text(d.inner) + [CloserOf(d.opener)] + Text(d.rest)[..m]
            && ScanFrom(Scan(stack, false, false), Text(d)[..n])
               == ScanFrom(Scan(stack, false, false), Text(d.rest)[..m])
  {
    var inner, closer := Text(d.inner), CloserOf(d.opener);
    var m := n - 2 - |inner|;
    var t := Text(d.rest)[..m];
    SliceGroup(d.opener, inner, closer, Text(d.rest), m);
    DocScansHome(d.inner, stack + [closer]);
    ScanGroup(d.opener, inner, t, stack);
  }

  lemma SliceGroup(opener: char, inner: string, closer: char, rest: string, m: nat)
    requires m <= |rest|
    ensures ([opener] + inner + [closer] + rest)[..2 + |inner| + m] == [opener] + inner + [closer] + rest[..m]
  {
  }

  lemma ScanGroup(opener: char, inner: string, t: string, stack: string)
    requires IsOpener(opener)
    requires var deeper := Scan(stack + [CloserOf(opener)], false, false); ScanFrom(deeper, inner) == deeper
    ensures ScanFrom(Scan(stack, false, false), [opener] + inner + [CloserOf(opener)] + t)
            == ScanFrom(Scan(stack, false, false), t)
  {
    var closer := CloserOf(opener);
    var deeper := Scan(stack + [closer], false, false);
    assert [opener] + inner + [closer] + t == [opener] + (inner + ([closer] + t));
    ScanCons(Scan(stack, false, false), opener, inner + ([closer] + t));
    ScanConcat(deeper, inner, [closer] + t);
    ScanCons(deeper, closer, t);
    assert deeper.stack[..|deeper.stack| - 1] == stack;
  }

  /** Repair yields balanced text for exactly the truncations of balanced text that do
      not stop inside an escape sequence. */
  lemma RepairBalances(s: string)
    ensures Balanced(Repair(s)) <==> PrefixOfBalanced(s) && !Dangling(s)
  {
    RepairCloses(s);
    if Balanced(Repair(s)) {
      var d :| ValidDoc(d) && Text(d) == Repair(s);
      DocScansHome(d, "");
      assert s <= Text(d);
    }
    if PrefixOfBalanced(s) && !Dangling(s) {
      var d :| ValidDoc(d) && s <= Text(d);
      assert s == Text(d)[..|s|];
      var above := CutDocCompletes(d, |s|, "");
      assert ScanFrom(HOME, s).stack == above;
      assert Text(CutDoc(d, |s|)) == Repair(s);
    }
  }

  /** A dangling escape does occur in a truncated reply, and one repair does not close it. */
  lemma DanglingEscapeExample()
    ensures PrefixOfBalanced("[\"\\") && Dangling("[\"\\") && !Balanced(Repair("[\"\\"))
  {
    var s := "[\"\\";
    var d := Nested('[', Quoted(Escaped('n', EndQuote), Empty), Empty);
    assert LiteralText(Escaped('n', EndQuote)) == "\\n\"";
    assert Text(d.inner) == "\"\\n\"";
    assert s <= Text(d);
    ScanSnoc(HOME, "", '[');
    ScanSnoc(HOME, "[", '"');
    ScanSnoc(HOME, "[\"", '\\');
    RepairBalances(s);
  }

  // ---------------------------------------------------------------------------
  // The bracket-depth fallback
  // ---------------------------------------------------------------------------

  /** Openers minus closers in `s`. */
  function Depth(s: string, opener: char, closer: char): int {
    if s == [] then 0
    else Depth(s[..|s| - 1], opener, closer)
         + (if s[|s| - 1] == opener then 1 else if s[|s| - 1] == closer then -1 else 0)
  }

  lemma {:induction false} DepthCounts(s: string, opener: char, closer: char)
    requires opener != closer
    ensures Depth(s, opener, closer) + multiset(s)[closer] == multiset(s)[opener]
  {
    if s != [] {
      var front := s[..|s| - 1];
      DepthCounts(front, opener, closer);
      assert s == front + [s[|s| - 1]];
    }
  }

  /** output[start..end] begins at the first opener and is the shortest piece from there
      in which openers and closers are equally many. */
  predicate IsSegment(output: string, opener: char, closer: char, start: int, end: int) {
    && 0 <= start < end <= |output|
    && output[start] == opener && (forall k :: 0 <= k < start ==> output[k] != opener)
    && Depth(output[start..end], opener, closer) == 0
    && forall e :: start < e < end ==> Depth(output[start..e], opener, closer) != 0
  }

  ghost predicate HasSegment(output: string, opener: char, closer: char) {
    exists start, end :: IsSegment(output, opener, closer, start, end)
  }

  method FindSegment(output: string, opener: char, closer: char) returns (r: Option<string>)
    requires opener != closer
    ensures r.Some? <==> HasSegment(output, opener, closer)
    ensures r.Some? ==>
              exists start, end :: IsSegment(output, opener, closer, start, end) && r.value == output[start..end]
  {
    var start := 0;
    while start < |output| && output[start] != opener
      invariant 0 <= start <= |output|
      invariant forall k :: 0 <= k < start ==> output[k] != opener
    {
      start := start + 1;
    }
    if start == |output| {
      return None;
    }
    var depth := 0;
    var i := start;
    while i < |output|
      invariant start <= i <= |output|
      invariant depth == Depth(output[start..i], opener, closer)
      invariant if i == start then depth == 0 else depth > 0
      invariant forall e :: start < e <= i ==> Depth(output[start..e], opener, closer) != 0
    {
      DepthSnoc(output, opener, closer, start, i);
      if output[i] == opener {
        depth := depth + 1;
      } else if output[i] == closer {
        depth := depth - 1;
        if depth == 0 {
          assert IsSegment(output, opener, closer, start, i + 1);
          return Some(output[start..i + 1]);
        }
      }
      i := i + 1;
    }
    NoSegment(output, opener, closer, start);
    r := None;
  }

  lemma DepthSnoc(output: string, opener: char, closer: char, start: nat, i: nat)
    requires start <= i < |output|
    ensures Depth(output[start..i + 1], opener, closer) == Depth(output[start..i], opener, closer)
              + (if output[i] == opener then 1 else if output[i] == closer then -1 else 0)
  {
    assert output[start..i + 1][..i - start] == output[start..i];
  }

  lemma NoSegment(output: string, opener: char, closer: char, start: nat)
    requires start < |output| && output[start] == opener
    requires forall k :: 0 <= k < start ==> output[k] != opener
    requires forall e :: start < e <= |output| ==> Depth(output[start..e], opener, closer) != 0
    ensures !HasSegment(output, opener, closer)
  {
  }

  /** Square brackets are tried before braces, as in the source. */
  method ExtractByDepth(output: string) returns (r: Option<string>)
    ensures r.Some? <==> HasSegment(output, '[', ']') || HasSegment(output, '{', '}')
    ensures HasSegment(output, '[', ']') ==>
              exists start, end :: IsSegment(output, '[', ']', start, end) && r == Some(output[start..end])
    ensures r.Some? && !HasSegment(output, '[', ']') ==>
              exists start, end :: IsSegment(output, '{', '}', start, end) && r == Some(output[start..end])
  {
    r := FindSegment(output, '[', ']');
    if r.None? {
      r := FindSegment(output, '{', '}');
    }
  }
}
