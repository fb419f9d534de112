/** Pairing of a session transcript into exchanges: `_parse_jsonl_session_pairs` in
    memem/transcripts.py. Reading a JSON line and extracting its text are left abstract. */
module TranscriptPairs {
  datatype Role = User | Assistant

  /** One line of the file: not a user or assistant message, or a message with the text
      extracted from it (possibly none). */
  datatype Line = Ignored | Message(role: Role, text: string)

  datatype Turn = Turn(role: Role, text: string)

  /** A run of user messages followed by a run of assistant messages. */
  datatype Block = Block(users: seq<string>, assistants: seq<string>)

  datatype Pair = Pair(userText: string, assistantText: string)

  function Turns(lines: seq<Line>): seq<Turn> {
    if lines == [] then []
    else (match lines[0]
          case Ignored => []
          case Message(role, text) => if text == "" then [] else [Turn(role, text)])
         + Turns(lines[1..])
  }

  /** A line adds a message exactly when it is one with a text, and stands among the others in its place. */
  lemma TurnsInOrder(before: seq<Line>, l: Line, after: seq<Line>)
    ensures Turns(before + [l] + after)
            == Turns(before) + (if l.Message? && l.text != "" then [Turn(l.role, l.text)] else []) + Turns(after)
  {
    TurnsConcat(before + [l], after);
    TurnsSnoc(before + [l], |before|);
    assert (before + [l])[..|before|] == before && (before + [l])[..|before| + 1] == before + [l];
  }

  function Join(parts: seq<string>): string {
    if parts == [] then "" else if |parts| == 1 then parts[0] else parts[0] + "\n" + Join(parts[1..])
  }

  /** Two lists of messages, one after the other, are joined by one line feed; a single message
      stands as it is. */
  lemma {:induction false} JoinConcat(a: seq<string>, b: seq<string>)
    requires a != [] && b != []
    ensures Join(a + b) == Join(a) + "\n" + Join(b)
    ensures |a| == 1 ==> Join(a) == a[0]
  {
    assert (a + b)[1..] == a[1..] + b;
    if |a| > 1 {
      JoinConcat(a[1..], b);
      assert a[0] + "\n" + (Join(a[1..]) + "\n" + Join(b)) == a[0] + "\n" + Join(a[1..]) + "\n" + Join(b);
    } else {
      assert a[1..] + b == b;
    }
  }

  function PairOf(b: Block): Pair { Pair(Join(b.users), Join(b.assistants)) }

  function PairsOf(bs: seq<Block>): seq<Pair> {
    seq(|bs|, i requires 0 <= i < |bs| => PairOf(bs[i]))
  }

  // ---------------------------------------------------------------------------
  // Reference: a transcript as runs
  // ---------------------------------------------------------------------------

  /** A leading assistant run, the exchanges, and a trailing user run. */
  datatype Session = Session(lead: seq<string>, blocks: seq<Block>, trail: seq<string>)

  predicate Valid(s: Session) {
    forall i :: 0 <= i < |s.blocks| ==> s.blocks[i].users != [] && s.blocks[i].assistants != []
  }

  function Says(role: Role, texts: seq<string>): (ts: seq<Turn>)
    ensures |ts| == |texts|
  {
    seq(|texts|, i requires 0 <= i < |texts| => Turn(role, texts[i]))
  }

  function Flat(bs: seq<Block>): seq<Turn> {
    if bs == [] then [] else Says(User, bs[0].users) + Says(Assistant, bs[0].assistants) + Flat(bs[1..])
  }

  function Flatten(s: Session): seq<Turn> {
    Says(Assistant, s.lead) + Flat(s.blocks) + Says(User, s.trail)
  }

  /** The session with one more message in front. */
  function Grow(t: Turn, s: Session): Session {
    if t.role.Assistant? then s.(lead := [t.text] + s.lead)
    else if s.lead != [] then Session([], [Block([t.text], s.lead)] + s.blocks, s.trail)
    else if s.blocks != [] then
      s.(blocks := [Block([t.text] + s.blocks[0].users, s.blocks[0].assistants)] + s.blocks[1..])
    else s.(trail := [t.text] + s.trail)
  }

  /** The decomposition of a transcript into maximal runs, read from its end. */
  function Runs(ts: seq<Turn>): Session {
    if ts == [] then Session([], [], []) else Grow(ts[0], Runs(ts[1..]))
  }

  lemma SaysCons(role: Role, text: string, texts: seq<string>)
    ensures Says(role, [text] + texts) == [Turn(role, text)] + Says(role, texts)
  {
  }

  lemma FlatCons(b: Block, bs: seq<Block>)
    ensures Flat([b] + bs) == Says(User, b.users) + Says(Assistant, b.assistants) + Flat(bs)
  {
    assert ([b] + bs)[1..] == bs;
  }

  lemma GrowFlatten(t: Turn, s: Session)
    requires Valid(s)
    ensures Valid(Grow(t, s))
    ensures Flatten(Grow(t, s)) == [t] + Flatten(s)
  {
    if t.role.Assistant? {
      SaysCons(Assistant, t.text, s.lead);
    } else if s.lead != [] {
      GrowBlock(t, s);
    } else if s.blocks != [] {
      GrowUsers(t, s);
    } else {
      SaysCons(User, t.text, s.trail);
    }
  }

  lemma GrowBlock(t: Turn, s: Session)
    requires Valid(s) && t.role.User? && s.lead != []
    ensures Valid(Grow(t, s)) && Flatten(Grow(t, s)) == [t] + Flatten(s)
  {
    FlatCons(Block([t.text], s.lead), s.blocks);
    assert Says(User, [t.text]) == [t];
  }

  lemma GrowUsers(t: Turn, s: Session)
    requires Valid(s) && t.role.User? && s.lead == [] && s.blocks != []
    ensures Valid(Grow(t, s)) && Flatten(Grow(t, s)) == [t] + Flatten(s)
  {
    var b, rest := s.blocks[0], s.blocks[1..];
    FlatCons(Block([t.text] + b.users, b.assistants), rest);
    SaysCons(User, t.text, b.users);
    assert Flat(Grow(t, s).blocks) == [t] + Flat(s.blocks);
  }

  /** No message is lost or reordered: the runs spell out the transcript. */
  lemma {:induction false} RunsFlatten(ts: seq<Turn>)
    ensures Valid(Runs(ts)) && Flatten(Runs(ts)) == ts
  {
    if ts != [] {
      RunsFlatten(ts[1..]);
      GrowFlatten(ts[0], Runs(ts[1..]));
    }
  }

  /** Every non-empty session arises by growing a smaller one. */
  lemma Shrink(s: Session) returns (t: Turn, s': Session)
    requires Valid(s) && Flatten(s) != []
    ensures Valid(s') && Grow(t, s') == s
  {
    if s.lead != [] {
      t, s' := Turn(Assistant, s.lead[0]), s.(lead := s.lead[1..]);
    } else if s.blocks != [] {
      var b, rest := s.blocks[0], s.blocks[1..];
      t := Turn(User, b.users[0]);
      if |b.users| == 1 {
        s' := Session(b.assistants, rest, s.trail);
        assert [t.text] == b.users;
      } else {
        s' := s.(blocks := [Block(b.users[1..], b.assistants)] + rest);
        assert s'.blocks[1..] == rest;
        assert [t.text] + b.users[1..] == b.users;
      }
      assert [b] + rest == s.blocks;
    } else {
      assert s.trail != [];
      t, s' := Turn(User, s.trail[0]), s.(trail := s.trail[1..]);
    }
  }

  /** The decomposition is the only one. */
  lemma {:induction false} RunsUnique(s: Session)
    requires Valid(s)
    ensures Runs(Flatten(s)) == s
    decreases |Flatten(s)|
  {
    if Flatten(s) != [] {
      var t, s' := Shrink(s);
      GrowFlatten(t, s');
      assert Flatten(s)[1..] == Flatten(s');
      RunsUnique(s');
    } else {
      assert |Flat(s.blocks)| == 0;
      assert Flatten(s) == [];
    }
  }

  // ---------------------------------------------------------------------------
  // The two-buffer loop
  // ---------------------------------------------------------------------------

  /** The emitted pairs are the exchanges of the run decomposition, in order: every
      non-empty message once, except a leading assistant run and a trailing user run. */
  method ParsePairs(lines: seq<Line>) returns (pairs: seq<Pair>)
    ensures pairs == PairsOf(Runs(Turns(lines)).blocks)
  {
    var userTexts, assistantTexts := [], [];
    pairs := [];
    ghost var lead, blocks := [], [];
    var i := 0;
    while i < |lines|
      invariant 0 <= i <= |lines|
      invariant pairs == PairsOf(blocks)
      invariant Valid(Session(lead, blocks, []))
      invariant userTexts == [] ==> lead == [] && blocks == []
      invariant Turns(lines[..i]) == Buffered(lead, blocks, userTexts, assistantTexts)
    {
      TurnsSnoc(lines, i);
      var line := lines[i];
      i := i + 1;
      if line.Ignored? || line.text == "" {
        continue;
      }
      if line.role.User? && assistantTexts != [] {
        FlushKeeps(lead, blocks, userTexts, assistantTexts);
        if userTexts != [] {
          PairsSnoc(blocks, Block(userTexts, assistantTexts));
          blocks := blocks + [Block(userTexts, assistantTexts)];
          pairs := pairs + [Pair(Join(userTexts), Join(assistantTexts))];
        } else {
          lead := assistantTexts;
        }
        userTexts, assistantTexts := [], [];
      }
      BufferMore(lead, blocks, userTexts, assistantTexts, line.text);
      if line.role.User? {
        userTexts := userTexts + [line.text];
      } else {
        assistantTexts := assistantTexts + [line.text];
      }
    }
    assert lines[..i] == lines;
    FlushKeeps(lead, blocks, userTexts, assistantTexts);
    if userTexts != [] && assistantTexts != [] {
      PairsSnoc(blocks, Block(userTexts, assistantTexts));
      blocks := blocks + [Block(userTexts, assistantTexts)];
      pairs := pairs + [Pair(Join(userTexts), Join(assistantTexts))];
      userTexts := [];
    } else if userTexts == [] {
      lead := assistantTexts;
    }
    BufferEmpty(lead, blocks, userTexts);
    RunsUnique(Session(lead, blocks, userTexts));
  }

  /** What has been read: the finished part and the two buffers. */
  ghost function Buffered(lead: seq<string>, blocks: seq<Block>, users: seq<string>, assistants: seq<string>)
    : seq<Turn>
  {
    Says(Assistant, lead) + Flat(blocks) + Says(User, users) + Says(Assistant, assistants)
  }

  lemma PairsSnoc(bs: seq<Block>, b: Block)
    ensures PairsOf(bs + [b]) == PairsOf(bs) + [Pair(Join(b.users), Join(b.assistants))]
  {
  }

  lemma BufferEmpty(lead: seq<string>, blocks: seq<Block>, users: seq<string>)
    ensures Buffered(lead, blocks, users, []) == Flatten(Session(lead, blocks, users))
  {
    assert Says(Assistant, []) == [];
  }

  lemma FlushKeeps(lead: seq<string>, blocks: seq<Block>, users: seq<string>, assistants: seq<string>)
    ensures users != [] ==>
              Buffered(lead, blocks, users, assistants) == Buffered(lead, blocks + [Block(users, assistants)], [], [])
    ensures users == [] && lead == [] && blocks == [] ==>
              Buffered(lead, blocks, users, assistants) == Buffered(assistants, [], [], [])
  {
    FlatSnoc(blocks, Block(users, assistants));
    assert Says(User, []) == [] && Says(Assistant, []) == [];
  }

  lemma BufferMore(lead: seq<string>, blocks: seq<Block>, users: seq<string>, assistants: seq<string>, text: string)
    ensures Buffered(lead, blocks, users, assistants + [text])
         == Buffered(lead, blocks, users, assistants) + [Turn(Assistant, text)]
    ensures assistants == [] ==>
              Buffered(lead, blocks, users + [text], []) == Buffered(lead, blocks, users, []) + [Turn(User, text)]
  {
    SaysSnoc(Assistant, assistants, text);
    SaysSnoc(User, users, text);
    assert Says(Assistant, []) == [];
  }

  lemma SaysSnoc(role: Role, texts: seq<string>, text: string)
    ensures Says(role, texts + [text]) == Says(role, texts) + [Turn(role, text)]
  {
  }

  lemma {:induction false} FlatSnoc(bs: seq<Block>, b: Block)
    ensures Flat(bs + [b]) == Flat(bs) + Says(User, b.users) + Says(Assistant, b.assistants)
  {
    if bs == [] {
      assert bs + [b] == [b];
      assert Flat([b][1..]) == [];
    } else {
      assert (bs + [b])[1..] == bs[1..] + [b];
      FlatSnoc(bs[1..], b);
    }
  }

  lemma {:induction false} TurnsSnoc(lines: seq<Line>, i: nat)
    requires i < |lines|
    ensures Turns(lines[..i + 1]) == Turns(lines[..i]) + Turns([lines[i]])
    ensures lines[i].Ignored? || lines[i].text == "" ==> Turns([lines[i]]) == []
    ensures lines[i].Message? && lines[i].text != "" ==> Turns([lines[i]]) == [Turn(lines[i].role, lines[i].text)]
  {
    assert Turns([lines[i]][1..]) == [];
    TurnsConcat(lines[..i], [lines[i]]);
    assert lines[..i + 1] == lines[..i] + [lines[i]];
  }

  lemma {:induction false} TurnsConcat(a: seq<Line>, b: seq<Line>)
    ensures Turns(a + b) == Turns(a) + Turns(b)
  {
    if a == [] {
      assert a + b == b;
    } else {
      assert (a + b)[1..] == a[1..] + b;
      TurnsConcat(a[1..], b);
    }
  }
}
