// The respawn message a manager writes is read back as the requests it lists
// (internal/task/comms.go, lines 223-257).
module RespawnFormat {
  import opened Comms

  // Neither end is white space.
  predicate Trimmed(s: string) {
    s != "" && !IsSpace(s[0]) && !IsSpace(s[|s| - 1])
  }

  // A request that fits on a line of its own.
  predicate Writable(r: RespawnRequest) {
    && Trimmed(r.subtaskId) && ':' !in r.subtaskId && '\n' !in r.subtaskId
    && Trimmed(r.instructions) && '\n' !in r.instructions
  }

  function RenderLine(r: RespawnRequest): string {
    r.subtaskId + ": " + r.instructions
  }

  function Render(reqs: seq<RespawnRequest>): string
    requires reqs != []
  {
    if |reqs| == 1 then RenderLine(reqs[0]) else RenderLine(reqs[0]) + "\n" + Render(reqs[1..])
  }

  function RespawnMessage(preamble: string, reqs: seq<RespawnRequest>): string
    requires reqs != []
  {
    preamble + MARKER + "\n" + Render(reqs)
  }

  lemma TrimmedStays(s: string)
    requires Trimmed(s)
    ensures TrimSpace(s) == s
  {
  }

  lemma LeadingSpaceGoes(c: char, s: string)
    requires IsSpace(c) && Trimmed(s)
    ensures TrimSpace([c] + s) == s
  {
    assert ([c] + s)[1..] == s;
    assert TrimLeft([c] + s) == TrimLeft(s) == s;
  }

  lemma {:induction false} ColonFound(a: string, b: string)
    requires ':' !in a
    ensures ColonAt(a + ":" + b) == |a|
  {
    if a == "" {
      assert (a + ":" + b)[0] == ':';
    } else {
      assert (a + ":" + b)[1..] == a[1..] + ":" + b;
      ColonFound(a[1..], b);
    }
  }

  lemma LineParses(r: RespawnRequest)
    requires Writable(r)
    ensures ParseLine(RenderLine(r)) == [r]
  {
    var line := RenderLine(r);
    TrimmedStays(line);
    assert line == r.subtaskId + ":" + (" " + r.instructions);
    ColonFound(r.subtaskId, " " + r.instructions);
    assert line[..|r.subtaskId|] == r.subtaskId;
    assert line[|r.subtaskId| + 1..] == [' '] + r.instructions;
    TrimmedStays(r.subtaskId);
    LeadingSpaceGoes(' ', r.instructions);
  }

  lemma {:induction false} LinesOfOne(a: string)
    requires '\n' !in a
    ensures Lines(a) == [a]
  {
    if a != "" {
      LinesOfOne(a[1..]);
      assert [a[0]] + a[1..] == a;
    }
  }

  lemma {:induction false} LinesSplit(a: string, b: string)
    requires '\n' !in a
    ensures Lines(a + "\n" + b) == [a] + Lines(b)
  {
    var s := a + "\n" + b;
    if a == "" {
      assert s[0] == '\n' && s[1..] == b;
    } else {
      assert s[0] == a[0] && s[1..] == a[1..] + "\n" + b;
      LinesSplit(a[1..], b);
      assert [a[0]] + a[1..] == a;
      assert ([a[1..]] + Lines(b))[1..] == Lines(b);
    }
  }

  lemma {:induction false} ParseLinesCons(line: string, lines: seq<string>)
    ensures ParseLines([line] + lines) == ParseLine(line) + ParseLines(lines)
  {
    hide ParseLine;
    var all := [line] + lines;
    if lines == [] {
      assert all[..0] == [];
    } else {
      assert all[..|all| - 1] == [line] + lines[..|lines| - 1];
      ParseLinesCons(line, lines[..|lines| - 1]);
    }
  }

  lemma LineIsPlain(r: RespawnRequest)
    requires Writable(r)
    ensures '\n' !in RenderLine(r) && Trimmed(RenderLine(r))
  {
  }

  lemma TrimmedJoin(a: string, b: string)
    requires Trimmed(a) && Trimmed(b)
    ensures Trimmed(a + "\n" + b)
  {
  }

  lemma {:induction false} RenderParses(reqs: seq<RespawnRequest>)
    requires reqs != [] && forall r :: r in reqs ==> Writable(r)
    ensures ParseLines(Lines(Render(reqs))) == reqs
    ensures Trimmed(Render(reqs))
  {
    hide Lines, ParseLine, Trimmed, RenderLine, Writable;
    var line := RenderLine(reqs[0]);
    LineParses(reqs[0]);
    LineIsPlain(reqs[0]);
    if |reqs| == 1 {
      LinesOfOne(line);
      ParseLinesCons(line, []);
      assert reqs == [reqs[0]];
    } else {
      var rest := Render(reqs[1..]);
      RenderParses(reqs[1..]);
      LinesSplit(line, rest);
      ParseLinesCons(line, Lines(rest));
      assert reqs == [reqs[0]] + reqs[1..];
      TrimmedJoin(line, rest);
    }
  }

  // The marker cannot begin inside itself, so it is found right after the preamble.
  lemma MarkerFound(preamble: string, rest: string)
    requires !Contains(preamble, MARKER)
    ensures SplitsAt(preamble + MARKER + rest, |preamble|)
  {
    var s := preamble + MARKER + rest;
    assert OccursAt(s, MARKER, |preamble|);
    forall j: nat | j < |preamble| ensures !OccursAt(s, MARKER, j) {
      if OccursAt(s, MARKER, j) {
        if j + |MARKER| <= |preamble| {
          assert OccursAt(preamble, MARKER, j);
        } else {
          var d := |preamble| - j;
          assert s[|preamble|] == MARKER[0];
          assert s[j..j + |MARKER|][d] == s[|preamble|];
          assert MARKER[d] == '[';
          NoBracketInside(d);
        }
      }
    }
  }

  lemma NoBracketInside(d: nat)
    requires 0 < d < |MARKER|
    ensures MARKER[d] != '['
  {
  }

  // Writing a respawn message and polling it gives back the requests, whatever text precedes the marker.
  lemma RespawnRoundTrip(preamble: string, reqs: seq<RespawnRequest>)
    requires !Contains(preamble, MARKER)
    requires reqs != [] && forall r :: r in reqs ==> Writable(r)
    ensures Parsed(RespawnMessage(preamble, reqs)) == reqs
  {
    var body := "\n" + Render(reqs);
    MarkerFound(preamble, body);
    var content := RespawnMessage(preamble, reqs);
    assert content == preamble + MARKER + body;
    ParsedAt(content, |preamble|);
    assert BodyAfter(content, |preamble|) == ['\n'] + Render(reqs);
    RenderParses(reqs);
    LeadingSpaceGoes('\n', Render(reqs));
  }

  // ---------- any spacing ----------

  predicate Blank(s: string) {
    forall c :: c in s ==> IsSpace(c)
  }

  // Below U+0100 these eight characters are white space.
  lemma PlainSpaces(c: char)
    requires c < '\U{100}'
    ensures IsSpace(c) <==> c in {' ', '\t', '\n', '\U{b}', '\U{c}', '\r', '\U{85}', '\U{a0}'}
  {
  }

  lemma {:induction false} BlankLeft(b: string, s: string)
    requires Blank(b)
    ensures TrimLeft(b + s) == TrimLeft(s)
  {
    if b == "" {
      assert b + s == s;
    } else {
      assert (b + s)[1..] == b[1..] + s;
      BlankLeft(b[1..], s);
    }
  }

  lemma {:induction false} BlankRight(s: string, b: string)
    requires Blank(b)
    ensures TrimRight(s + b) == TrimRight(s)
  {
    if b == "" {
      assert s + b == s;
    } else {
      assert (s + b)[..|s + b| - 1] == s + b[..|b| - 1];
      BlankRight(s, b[..|b| - 1]);
    }
  }

  lemma TrimSpaced(b: string, s: string, b': string)
    requires Blank(b) && Blank(b') && (s == "" || Trimmed(s))
    ensures TrimSpace(b + s + b') == s
  {
    assert b + s + b' == b + (s + b');
    BlankLeft(b, s + b');
    if s == "" {
      assert s + b' == b' + "";
      BlankLeft(b', "");
    } else {
      assert (s + b')[0] == s[0];
      BlankRight(s, b');
    }
  }

  // White space around a line does not matter.
  lemma SpacedParses(b: string, line: string, b': string)
    requires Blank(b) && Blank(b') && (line == "" || Trimmed(line))
    ensures ParseLine(b + line + b') == ParseLine(line)
  {
    TrimSpaced(b, line, b');
    TrimSpaced("", line, "");
    assert "" + line + "" == line;
  }

  // A line without a colon says nothing.
  lemma NoColonNoRequest(line: string)
    requires ':' !in line
    ensures ParseLine(line) == []
  {
    var b, b' := Margins(line);
  }

  lemma Margins(s: string) returns (b: string, b': string)
    ensures s == b + TrimSpace(s) + b' && Blank(b) && Blank(b')
    ensures TrimSpace(s) == "" || Trimmed(TrimSpace(s))
  {
    b := LeftMargin(s);
    b' := RightMargin(TrimLeft(s));
  }

  lemma {:induction false} LeftMargin(s: string) returns (b: string)
    ensures s == b + TrimLeft(s) && Blank(b)
    ensures TrimLeft(s) == "" || !IsSpace(TrimLeft(s)[0])
  {
    b := "";
    if s != "" && IsSpace(s[0]) {
      b := LeftMargin(s[1..]);
      b := [s[0]] + b;
    }
  }

  lemma {:induction false} RightMargin(s: string) returns (b: string)
    ensures s == TrimRight(s) + b && Blank(b)
    ensures TrimRight(s) == "" || !IsSpace(TrimRight(s)[|TrimRight(s)| - 1])
  {
    b := "";
    if s != "" && IsSpace(s[|s| - 1]) {
      b := RightMargin(s[..|s| - 1]);
      b := b + [s[|s| - 1]];
    }
  }

  // Nor does one with nothing before its colon.
  lemma NoIdNoRequest(b: string, instructions: string)
    requires Blank(b)
    ensures ParseLine(b + ":" + instructions) == []
  {
    hide IsSpace;
    IsNoSpace();
    var rest := ":" + instructions;
    var right := RightMargin(rest);
    var line := TrimRight(rest);
    assert b + ":" + instructions == b + rest;
    assert b + rest == b + line + right;
    assert rest[0] == ':' && (line == "" ==> ':' in right);
    assert line[0] == rest[0];
    SpacedParses(b, line, right);
    TrimmedStays(line);
    assert line[..0] == "";
  }

  lemma IsNoSpace()
    ensures !IsSpace(':')
  {
  }

  // Every other line makes one request, whatever white space stands around its parts, and
  // even without instructions.
  lemma SpacedRequest(b: string, r: RespawnRequest, b1: string, b2: string, b': string)
    requires Blank(b) && Blank(b1) && Blank(b2) && Blank(b')
    requires Trimmed(r.subtaskId) && ':' !in r.subtaskId && (r.instructions == "" || Trimmed(r.instructions))
    ensures ParseLine(b + r.subtaskId + b1 + ":" + b2 + r.instructions + b') == [r]
  {
    hide IsSpace;
    IsNoSpace();
    var id := r.subtaskId;
    var whole := b + id + b1 + ":" + b2 + r.instructions + b';
    if r.instructions == "" {
      var line := id + b1 + ":" + "";
      assert whole == b + line + (b2 + b');
      CoreParses(id, b1, "");
      SpacedParses(b, line, b2 + b');
      TrimSpaced("", "", "");
    } else {
      var line := id + b1 + ":" + (b2 + r.instructions);
      assert whole == b + line + b';
      CoreParses(id, b1, b2 + r.instructions);
      SpacedParses(b, line, b');
      TrimSpaced(b2, r.instructions, "");
      assert b2 + r.instructions + "" == b2 + r.instructions;
    }
  }

  lemma CoreParses(id: string, b: string, tail: string)
    requires Blank(b) && Trimmed(id) && ':' !in id && (tail == "" || !IsSpace(tail[|tail| - 1]))
    ensures Trimmed(id + b + ":" + tail)
    ensures ParseLine(id + b + ":" + tail) == [RespawnRequest(id, TrimSpace(tail))]
  {
    hide IsSpace;
    IsNoSpace();
    var head := id + b;
    var line := head + ":" + tail;
    assert line[0] == id[0];
    assert ':' !in head by {
      assert forall c :: c in head ==> c in id || c in b;
    }
    TrimmedStays(line);
    ColonFound(head, tail);
    assert line[..|head|] == "" + id + b && line[|head| + 1..] == tail;
    TrimSpaced("", id, b);
  }

  lemma NamedLine(id: string, text: string)
    requires ':' !in id && !Blank(id)
    ensures ParseLine(id + ":" + text) == [RespawnRequest(TrimSpace(id), TrimSpace(text))]
  {
    hide ParseLine, IsSpace;
    var b, b1 := Margins(id);
    var b2, b' := Margins(text);
    var r := RespawnRequest(TrimSpace(id), TrimSpace(text));
    hide TrimSpace;
    assert id + ":" + text == b + r.subtaskId + b1 + ":" + b2 + r.instructions + b';
    assert r.subtaskId == "" ==> id == b + b1;
    assert ':' !in r.subtaskId by {
      assert forall c :: c in r.subtaskId ==> c in id;
    }
    SpacedRequest(b, r, b1, b2, b');
  }

  // What any line says, told from what stands before and after its first colon.
  lemma EveryLine(line: string) returns (id: string, text: string)
    ensures ':' !in line ==> ParseLine(line) == []
    ensures ':' in line ==> line == id + ":" + text && ':' !in id
    ensures ':' in line ==>
              ParseLine(line) == if Blank(id) then [] else [RespawnRequest(TrimSpace(id), TrimSpace(text))]
  {
    hide ParseLine, TrimSpace, Blank;
    id, text := "", "";
    var i := ColonAt(line);
    if i < 0 {
      NoColonNoRequest(line);
      return;
    }
    id, text := line[..i], line[i + 1..];
    assert line == id + ":" + text;
    if Blank(id) {
      NoIdNoRequest(id, text);
    } else {
      NamedLine(id, text);
    }
  }

  // ---------- whole messages ----------

  lemma LeadingBlankParses(c: char, s: string)
    requires IsSpace(c)
    ensures ParseLine([c] + s) == ParseLine(s)
  {
    BlankLeft([c], s);
  }

  lemma TrimTrailing(s: string, c: char)
    requires IsSpace(c)
    ensures TrimSpace(s + [c]) == TrimSpace(s)
  {
    hide IsSpace;
    var b := LeftMargin(s);
    var t := TrimLeft(s);
    BlankLeft(b, t);
    BlankLeft(b, t + [c]);
    assert b + (t + [c]) == s + [c];
    if t == "" {
      BlankLeft([c], "");
      assert [c] + "" == t + [c];
    } else {
      assert (t + [c])[0] == t[0];
      BlankRight(t, [c]);
    }
  }

  lemma TrailingBlankParses(s: string, c: char)
    requires IsSpace(c)
    ensures ParseLine(s + [c]) == ParseLine(s)
  {
    TrimTrailing(s, c);
  }

  lemma {:induction false} LeftTrimHarmless(s: string)
    ensures ParseLines(Lines(TrimLeft(s))) == ParseLines(Lines(s))
  {
    hide Lines, ParseLines, IsSpace;
    if s != "" && IsSpace(s[0]) {
      LeftTrimHarmless(s[1..]);
      BlankAtStart(s);
    }
  }

  lemma BlankAtStart(s: string)
    requires s != "" && IsSpace(s[0])
    ensures ParseLines(Lines(s)) == ParseLines(Lines(s[1..]))
  {
    LinesStart(s);
    hide Lines, ParseLine, ParseLines, IsSpace;
    var rest := Lines(s[1..]);
    if s[0] == '\n' {
      ParseLinesCons("", rest);
      EmptyLine();
    } else {
      LeadingBlankParses(s[0], rest[0]);
      ParseLinesCons([s[0]] + rest[0], rest[1..]);
      ParseLinesCons(rest[0], rest[1..]);
      assert [rest[0]] + rest[1..] == rest;
    }
  }

  lemma EmptyLine()
    ensures ParseLine("") == []
  {
  }

  function PushFront(c: char, lines: seq<string>): seq<string>
    requires lines != []
  {
    if c == '\n' then [""] + lines else [[c] + lines[0]] + lines[1..]
  }

  function PushBack(lines: seq<string>, c: char): seq<string>
    requires lines != []
  {
    if c == '\n' then lines + [""] else lines[..|lines| - 1] + [lines[|lines| - 1] + [c]]
  }

  lemma PushBoth(b: char, lines: seq<string>, c: char)
    requires lines != []
    ensures PushFront(b, PushBack(lines, c)) == PushBack(PushFront(b, lines), c)
  {
    var front, back := PushFront(b, lines), PushBack(lines, c);
    assert [b] + (lines[0] + [c]) == [b] + lines[0] + [c];
    forall k | 0 <= k < |PushFront(b, back)| ensures PushFront(b, back)[k] == PushBack(front, c)[k] {
    }
  }

  // One character more at the end: on the last line, or a new line.
  lemma {:induction false} LinesEnd(s: string, c: char)
    ensures Lines(s + [c]) == PushBack(Lines(s), c)
  {
    hide PushFront, PushBack;
    if s != "" {
      assert (s + [c])[1..] == s[1..] + [c];
      LinesEnd(s[1..], c);
      PushBoth(s[0], Lines(s[1..]), c);
      LinesStart(s);
      LinesStart(s + [c]);
    } else {
      OneCharacter(c);
    }
  }

  lemma OneCharacter(c: char)
    ensures Lines("" + [c]) == PushBack(Lines(""), c)
  {
    var s := "" + [c];
    assert s[1..] == "";
    assert Lines("") == [""];
    assert [c] + "" == "" + [c];
  }

  lemma LinesStart(s: string)
    requires s != ""
    ensures Lines(s) == PushFront(s[0], Lines(s[1..]))
  {
  }

  lemma BlankAtEnd(s: string, c: char)
    requires IsSpace(c)
    ensures ParseLines(Lines(s + [c])) == ParseLines(Lines(s))
  {
    hide ParseLine, Lines, IsSpace;
    var lines := Lines(s);
    LinesEnd(s, c);
    if c == '\n' {
      EmptyLine();
      assert (lines + [""])[..|lines|] == lines;
    } else {
      TrailingBlankParses(lines[|lines| - 1], c);
    }
  }

  lemma {:induction false} RightTrimHarmless(s: string)
    ensures ParseLines(Lines(TrimRight(s))) == ParseLines(Lines(s))
  {
    hide ParseLine, Lines, ParseLines, IsSpace;
    if s != "" && IsSpace(s[|s| - 1]) {
      var init := s[..|s| - 1];
      RightTrimHarmless(init);
      BlankAtEnd(init, s[|s| - 1]);
      assert init + [s[|s| - 1]] == s;
    }
  }

  function Join(lines: seq<string>): string
    requires lines != []
  {
    if |lines| == 1 then lines[0] else lines[0] + "\n" + Join(lines[1..])
  }

  lemma {:induction false} JoinSplits(lines: seq<string>)
    requires lines != [] && forall line :: line in lines ==> '\n' !in line
    ensures Lines(Join(lines)) == lines
  {
    if |lines| == 1 {
      LinesOfOne(lines[0]);
    } else {
      JoinSplits(lines[1..]);
      LinesSplit(lines[0], Join(lines[1..]));
    }
  }

  // A message means what its lines mean, one after the other, from the marker on: with
  // `EveryLine`, its requests in any spacing and among any other text.
  lemma MessageMeaning(preamble: string, lines: seq<string>)
    requires !Contains(preamble, MARKER)
    requires lines != [] && forall line :: line in lines ==> '\n' !in line
    ensures Parsed(preamble + MARKER + Join(lines)) == ParseLines(lines)
  {
    var body := Join(lines);
    var content := preamble + MARKER + body;
    MarkerFound(preamble, body);
    ParsedAt(content, |preamble|);
    assert BodyAfter(content, |preamble|) == body;
    RightTrimHarmless(TrimLeft(body));
    LeftTrimHarmless(body);
    JoinSplits(lines);
  }
}
