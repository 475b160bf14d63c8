// Polling the message log for the manager's respawn requests (internal/task/comms.go).
module Comms {
  import opened Plans

  datatype Sender = Unknown | From(subtask: string)

  datatype AgentMessage = AgentMessage(id: nat, sender: Sender, msgType: string, content: string)

  datatype RespawnRequest = RespawnRequest(subtaskId: Id, instructions: string)

  const MARKER: string := "[RESPAWN_WORKERS]"

  // ---------- text ----------

  // Unicode white space, as Go's strings.TrimSpace has it.
  predicate IsSpace(c: char) {
    || c == ' ' || '\U{9}' <= c <= '\U{d}' || c == '\U{85}' || c == '\U{a0}' || c == '\U{1680}'
    || '\U{2000}' <= c <= '\U{200a}' || c == '\U{2028}' || c == '\U{2029}' || c == '\U{202f}'
    || c == '\U{205f}' || c == '\U{3000}'
  }

  function TrimLeft(s: string): string {
    if s != [] && IsSpace(s[0]) then TrimLeft(s[1..]) else s
  }

  function TrimRight(s: string): string {
    if s != [] && IsSpace(s[|s| - 1]) then TrimRight(s[..|s| - 1]) else s
  }

  function TrimSpace(s: string): string {
    TrimRight(TrimLeft(s))
  }

  predicate OccursAt(s: string, sub: string, i: nat) {
    i + |sub| <= |s| && s[i..i + |sub|] == sub
  }

  predicate Contains(s: string, sub: string) {
    exists i: nat :: i <= |s| && OccursAt(s, sub, i)
  }

  // The lines between line feeds.
  function Lines(s: string): (r: seq<string>)
    ensures r != []
  {
    if s == [] then [""]
    else
      var rest := Lines(s[1..]);
      if s[0] == '\n' then [""] + rest else [[s[0]] + rest[0]] + rest[1..]
  }

  // A line split at its first colon, if it has one.
  function ColonAt(line: string): (i: int)
    ensures -1 <= i < |line|
    ensures i >= 0 ==> line[i] == ':' && ':' !in line[..i]
    ensures i < 0 ==> ':' !in line
  {
    if line == [] then -1
    else if line[0] == ':' then 0
    else
      var i := ColonAt(line[1..]);
      assert line == [line[0]] + line[1..];
      assert i >= 0 ==> line[..i + 1] == [line[0]] + line[1..][..i];
      if i < 0 then -1 else i + 1
  }

  function ParseLine(raw: string): seq<RespawnRequest> {
    var line := TrimSpace(raw);
    var i := ColonAt(line);
    if i < 0 || TrimSpace(line[..i]) == "" then []
    else [RespawnRequest(TrimSpace(line[..i]), TrimSpace(line[i + 1..]))]
  }

  function ParseLines(lines: seq<string>): seq<RespawnRequest> {
    if lines == [] then [] else ParseLines(lines[..|lines| - 1]) + ParseLine(lines[|lines| - 1])
  }

  // The first occurrence of the marker splits the message.
  ghost predicate SplitsAt(content: string, i: nat) {
    OccursAt(content, MARKER, i) && forall j: nat :: j < i ==> !OccursAt(content, MARKER, j)
  }

  function BodyAfter(content: string, i: nat): string
    requires OccursAt(content, MARKER, i)
  {
    content[i + |MARKER|..]
  }

  method IndexOf(s: string, sub: string) returns (i: int)
    ensures i < 0 <==> !Contains(s, sub)
    ensures i >= 0 ==> OccursAt(s, sub, i) && forall j: nat :: j < i ==> !OccursAt(s, sub, j)
  {
    i := 0;
    while i <= |s|
      invariant 0 <= i <= |s| + 1
      invariant forall j: nat :: j < i ==> !OccursAt(s, sub, j)
    {
      if i + |sub| <= |s| && s[i..i + |sub|] == sub {
        assert OccursAt(s, sub, i);
        return;
      }
      i := i + 1;
    }
    i := -1;
  }

  // What a message asks for: empty when it is not a respawn message at all.
  ghost function Parsed(content: string): seq<RespawnRequest> {
    if i: nat :| SplitsAt(content, i) then ParseLines(Lines(TrimSpace(BodyAfter(content, i)))) else []
  }

  lemma SplitUnique(content: string, i: nat, j: nat)
    requires SplitsAt(content, i) && SplitsAt(content, j)
    ensures i == j
  {
  }

  lemma ParsedAt(content: string, i: nat)
    requires SplitsAt(content, i)
    ensures Parsed(content) == ParseLines(Lines(TrimSpace(BodyAfter(content, i))))
  {
    var k: nat :| SplitsAt(content, k) && Parsed(content) == ParseLines(Lines(TrimSpace(BodyAfter(content, k))));
    SplitUnique(content, i, k);
  }

  method ParseRespawnContent(content: string) returns (reqs: seq<RespawnRequest>)
    ensures reqs == Parsed(content)
    ensures !Contains(content, MARKER) ==> reqs == []
  {
    var idx := IndexOf(content, MARKER);
    if idx < 0 {
      assert forall i: nat :: !SplitsAt(content, i);
      return [];
    }
    ParsedAt(content, idx);
    reqs := ParseBody(BodyAfter(content, idx));
  }

  lemma ParseLinesNext(lines: seq<string>, n: nat)
    requires n < |lines|
    ensures ParseLines(lines[..n + 1]) == ParseLines(lines[..n]) + ParseLine(lines[n])
  {
    assert lines[..n + 1][..n] == lines[..n];
  }

  // The loop body for one line: blank lines, lines without a colon and lines without
  // an id are passed over.
  method ReadLine(raw: string) returns (reqs: seq<RespawnRequest>)
    ensures reqs == ParseLine(raw)
  {
    var line := TrimSpace(raw);
    if line == "" {
      return [];
    }
    var i := ColonAt(line);
    if i < 0 {
      return [];
    }
    var subtaskId := TrimSpace(line[..i]);
    var instructions := TrimSpace(line[i + 1..]);
    if subtaskId == "" {
      return [];
    }
    return [RespawnRequest(subtaskId, instructions)];
  }

  method ParseBody(body: string) returns (reqs: seq<RespawnRequest>)
    ensures reqs == ParseLines(Lines(TrimSpace(body)))
  {
    var lines := Lines(TrimSpace(body));
    reqs := [];
    for n := 0 to |lines|
      invariant reqs == ParseLines(lines[..n])
    {
      ParseLinesNext(lines, n);
      var parsed := ReadLine(lines[n]);
      reqs := reqs + parsed;
    }
    assert lines[..|lines|] == lines;
  }

  // ---------- the log ----------

  // Rows in the order of their automatic ids.
  predicate Increasing(log: seq<AgentMessage>) {
    forall j, k :: 0 <= j < k < |log| ==> log[j].id < log[k].id
  }

  predicate FromManager(m: AgentMessage) {
    m.sender == From("manager") && m.msgType == "message"
  }

  // The requests a message makes of the orchestrator.
  ghost function Requests(m: AgentMessage): seq<RespawnRequest> {
    if FromManager(m) then Parsed(m.content) else []
  }

  // A message of the manager's to the team that holds the marker.
  ghost predicate OfManager(m: AgentMessage) {
    m.sender == From("manager") && m.msgType == "message" && Contains(m.content, MARKER)
  }

  // Nothing else makes requests, whatever it contains.
  lemma OnlyManagerAsks(m: AgentMessage)
    ensures Requests(m) != [] ==> OfManager(m)
  {
    if Requests(m) != [] {
      var i: nat :| SplitsAt(m.content, i);
      assert OccursAt(m.content, MARKER, i);
    }
  }

  // The respawn messages of a stretch of the log, in order, each once.
  ghost function Respawns(log: seq<AgentMessage>): seq<seq<RespawnRequest>> {
    if log == [] then []
    else
      var m := log[|log| - 1];
      Respawns(log[..|log| - 1]) + if Requests(m) == [] then [] else [Requests(m)]
  }

  // How far a cursor has read: everything up to position `n` and nothing after it.
  predicate ReadsTo(log: seq<AgentMessage>, cursor: nat, n: nat) {
    && n <= |log|
    && (forall k :: 0 <= k < n ==> log[k].id <= cursor)
    && (forall k :: n <= k < |log| ==> cursor < log[k].id)
  }

  // SELECT ... WHERE id > afterID ORDER BY id
  function ListAfter(log: seq<AgentMessage>, afterId: nat): seq<AgentMessage> {
    if log == [] then []
    else
      var rest := ListAfter(log[..|log| - 1], afterId);
      if log[|log| - 1].id > afterId then rest + [log[|log| - 1]] else rest
  }

  lemma {:induction false} ListAfterIs(log: seq<AgentMessage>, cursor: nat, n: nat)
    requires Increasing(log) && ReadsTo(log, cursor, n)
    ensures ListAfter(log, cursor) == log[n..]
  {
    if log != [] {
      var init, last := log[..|log| - 1], log[|log| - 1];
      var m := if n == |log| then n - 1 else n;
      assert Increasing(init) && ReadsTo(init, cursor, m);
      ListAfterIs(init, cursor, m);
      hide Increasing;
      assert last.id > cursor <==> n < |log|;
      hide ReadsTo;
      assert n < |log| ==> log[n..] == init[n..] + [last];
    }
  }

  // Where a poll stops that has read `n` rows: after the next respawn message, or at the end.
  ghost function StopAt(log: seq<AgentMessage>, n: nat): (stop: nat)
    requires n <= |log|
    ensures n <= stop <= |log|
    decreases |log| - n
  {
    if n == |log| then n
    else if Requests(log[n]) != [] then n + 1
    else StopAt(log, n + 1)
  }

  // The id of the last row read, or where the cursor was before any.
  function CursorAt(log: seq<AgentMessage>, afterId: nat, n: nat, n': nat): nat
    requires n <= n' <= |log|
  {
    if n' == n then afterId else log[n' - 1].id
  }

  // Rows that are not of the manager may be left out.
  lemma {:induction false} OthersLeaveNoTrace(log: seq<AgentMessage>, k: nat)
    requires k < |log| && !OfManager(log[k])
    ensures Respawns(log) == Respawns(log[..k] + log[k + 1..])
  {
    hide Requests, OfManager;
    OnlyManagerAsks(log[k]);
    var rest := log[..k] + log[k + 1..];
    if k == |log| - 1 {
      assert rest == log[..|log| - 1];
    } else {
      OthersLeaveNoTrace(log[..|log| - 1], k);
      assert rest[..|rest| - 1] == log[..|log| - 1][..k] + log[..|log| - 1][k + 1..];
      assert rest[|rest| - 1] == log[|log| - 1];
    }
  }

  lemma RespawnsNext(log: seq<AgentMessage>, n: nat)
    requires n < |log|
    ensures Respawns(log[..n + 1]) == Respawns(log[..n]) + if Requests(log[n]) == [] then [] else [Requests(log[n])]
  {
    hide Parsed;
    assert log[..n + 1][..n] == log[..n];
  }

  // The rows up to the stop hold one respawn message, or none and they are all that is left.
  lemma {:induction false} StopsThere(log: seq<AgentMessage>, n: nat)
    requires n <= |log|
    ensures var stop := StopAt(log, n);
      if n < stop && Requests(log[stop - 1]) != []
      then Respawns(log[..stop]) == Respawns(log[..n]) + [Requests(log[stop - 1])]
      else stop == |log| && Respawns(log[..stop]) == Respawns(log[..n])
    decreases |log| - n
  {
    hide Requests;
    if n < |log| {
      RespawnsNext(log, n);
      if Requests(log[n]) == [] {
        StopsThere(log, n + 1);
      }
    }
  }

  // A poll that has found no respawn message between positions `n` and `n'`.
  ghost predicate Reading(log: seq<AgentMessage>, afterId: nat, n: nat, cursor: nat, n': nat) {
    && n <= n' && ReadsTo(log, cursor, n')
    && StopAt(log, n) == StopAt(log, n') && Respawns(log[..n']) == Respawns(log[..n])
    && cursor == CursorAt(log, afterId, n, n') && afterId <= cursor
  }

  // Reading one message more.
  lemma ReadsNext(log: seq<AgentMessage>, afterId: nat, n: nat, cursor: nat, n': nat)
    requires Increasing(log) && Reading(log, afterId, n, cursor, n') && n' < |log|
    ensures var m := log[n'];
      && m.id > cursor && ReadsTo(log, m.id, n' + 1) && CursorAt(log, afterId, n, n' + 1) == m.id
      && Respawns(log[..n' + 1]) == Respawns(log[..n]) + (if Requests(m) == [] then [] else [Requests(m)])
      && (if Requests(m) == [] then Reading(log, afterId, n, m.id, n' + 1) else StopAt(log, n) == n' + 1)
  {
    hide Requests, Respawns, ReadsTo;
    RespawnsNext(log, n');
    ReadsOneMore(log, cursor, n');
  }

  lemma ReadsOneMore(log: seq<AgentMessage>, cursor: nat, n: nat)
    requires Increasing(log) && ReadsTo(log, cursor, n) && n < |log|
    ensures log[n].id > cursor && ReadsTo(log, log[n].id, n + 1)
  {
  }

  // The filters a message passes through.
  method Inspect(m: AgentMessage) returns (reqs: seq<RespawnRequest>)
    ensures reqs == Requests(m)
  {
    if m.sender == Unknown || m.sender != From("manager") {
      return [];
    }
    if m.msgType != "message" {
      return [];
    }
    reqs := ParseRespawnContent(m.content);
  }

  // One poll, from a cursor that has read exactly `n` messages: it stops at the first
  // respawn message after them, or reads to the end.
  method CheckRespawnRequests(log: seq<AgentMessage>, afterId: nat, dbOk: bool, ghost n: nat)
    returns (reqs: seq<RespawnRequest>, cursor: nat, ghost n': nat)
    requires Increasing(log) && ReadsTo(log, afterId, n)
    ensures n' == if dbOk then StopAt(log, n) else n
    ensures ReadsTo(log, cursor, n') && cursor == CursorAt(log, afterId, n, n') && afterId <= cursor
    ensures Respawns(log[..n']) == Respawns(log[..n]) + if reqs == [] then [] else [reqs]
    ensures dbOk && reqs == [] ==> n' == |log|
    ensures reqs != [] ==> n < n' && reqs == Requests(log[n' - 1]) && OfManager(log[n' - 1])
    ensures !dbOk ==> reqs == []
  {
    hide Requests, Respawns, StopAt, ListAfter, OfManager;
    if !dbOk {
      return [], afterId, n;
    }
    var messages := ListAfter(log, afterId);
    ListAfterIs(log, afterId, n);
    cursor := afterId;
    n' := n;
    for i := 0 to |messages|
      invariant n' == n + i <= |log| && Reading(log, afterId, n, cursor, n')
    {
      var m := messages[i];
      ReadsNext(log, afterId, n, cursor, n');
      if m.id > cursor {
        cursor := m.id;
      }
      n' := n' + 1;
      reqs := Inspect(m);
      OnlyManagerAsks(m);
      if |reqs| > 0 {
        return;
      }
    }
    StopsAtEnd(log);
    reqs := [];
  }

  lemma StopsAtEnd(log: seq<AgentMessage>)
    ensures StopAt(log, |log|) == |log|
  {
  }

  // ---------- many polls over a growing log ----------

  datatype Step = Append(m: AgentMessage) | Poll(dbOk: bool)

  // The rows written during a session.
  function Logged(steps: seq<Step>): seq<AgentMessage> {
    if steps == [] then []
    else
      var before := Logged(steps[..|steps| - 1]);
      match steps[|steps| - 1]
      case Append(m) => before + [m]
      case Poll(_) => before
  }

  // How many of them its polls have read.
  ghost function Position(steps: seq<Step>): (n: nat)
    ensures n <= |Logged(steps)|
  {
    if steps == [] then 0
    else
      var before := steps[..|steps| - 1];
      match steps[|steps| - 1]
      case Append(_) => Position(before)
      case Poll(dbOk) => if dbOk then StopAt(Logged(before), Position(before)) else Position(before)
  }

  // Ids are automatic: they start at one and grow.
  predicate Numbered(log: seq<AgentMessage>) {
    Increasing(log) && forall m :: m in log ==> m.id > 0
  }

  lemma StepsNext(steps: seq<Step>, step: Step)
    ensures Logged(steps + [step]) == if step.Append? then Logged(steps) + [step.m] else Logged(steps)
    ensures Position(steps + [step]) ==
            if step == Poll(true) then StopAt(Logged(steps), Position(steps)) else Position(steps)
  {
    assert (steps + [step])[..|steps|] == steps;
  }

  lemma {:induction false} LogGrows(steps: seq<Step>, i: nat)
    requires i <= |steps|
    ensures Logged(steps[..i]) <= Logged(steps) && Position(steps[..i]) <= Position(steps)
    decreases |steps|
  {
    hide Logged, Position, StopAt;
    if i < |steps| {
      var before := steps[..|steps| - 1];
      LogGrows(before, i);
      assert before[..i] == steps[..i] && before + [steps[|steps| - 1]] == steps;
      StepsNext(before, steps[|steps| - 1]);
    } else {
      assert steps[..i] == steps;
    }
  }

  // The cursor after a session; it never falls back.
  ghost function Cursor(steps: seq<Step>): nat {
    CursorAt(Logged(steps), 0, 0, Position(steps))
  }

  // A cursor at the id of the last row read separates the rows read from the others.
  lemma CursorReads(log: seq<AgentMessage>, n: nat)
    requires Numbered(log) && n <= |log|
    ensures ReadsTo(log, CursorAt(log, 0, 0, n), n)
  {
    forall k | n <= k < |log| ensures CursorAt(log, 0, 0, n) < log[k].id {
      assert log[k] in log;
    }
  }

  lemma CursorNeverFalls(steps: seq<Step>, i: nat)
    requires Numbered(Logged(steps)) && i <= |steps|
    ensures Cursor(steps[..i]) <= Cursor(steps)
  {
    hide Logged, Position;
    LogGrows(steps, i);
  }

  // How many respawn messages are logged but not yet delivered.
  ghost function Undelivered(steps: seq<Step>): nat {
    |Respawns(Logged(steps)[Position(steps)..])|
  }

  lemma {:induction false} RespawnsSplit(log: seq<AgentMessage>, n: nat)
    requires n <= |log|
    ensures Respawns(log) == Respawns(log[..n]) + Respawns(log[n..])
  {
    hide Requests;
    if n == |log| {
      assert log[..n] == log;
    } else {
      var init := log[..|log| - 1];
      RespawnsSplit(init, n);
      assert init[..n] == log[..n] && init[n..] == log[n..][..|log| - n - 1];
    }
  }

  // A successful poll delivers one of them, or has read everything.
  lemma PollProgress(steps: seq<Step>)
    ensures var after := steps + [Poll(true)];
      if Undelivered(steps) > 0 then Undelivered(after) == Undelivered(steps) - 1
      else Undelivered(after) == 0 && Position(after) == |Logged(after)|
  {
    var log, n := Logged(steps), Position(steps);
    StepsNext(steps, Poll(true));
    StopsThere(log, n);
    RespawnsSplit(log, n);
    RespawnsSplit(log, StopAt(log, n));
  }

  // Polls that succeed, more of them than there are undelivered messages, deliver them
  // all and leave nothing unread.
  lemma EnoughPollsDrain(steps: seq<Step>, polls: nat)
    ensures var after := steps + seq(polls, _ => Poll(true));
      && Logged(after) == Logged(steps)
      && (polls >= Undelivered(steps) ==> Respawns(Logged(after)[..Position(after)]) == Respawns(Logged(steps)))
      && (polls > Undelivered(steps) ==> Position(after) == |Logged(steps)|)
  {
    var after := Polled(steps, polls);
    RespawnsSplit(Logged(after), Position(after));
    assert Undelivered(after) == 0 ==> Respawns(Logged(after)[Position(after)..]) == [];
  }

  lemma {:induction false} Polled(steps: seq<Step>, polls: nat) returns (after: seq<Step>)
    ensures after == steps + seq(polls, _ => Poll(true))
    ensures Logged(after) == Logged(steps)
    ensures Undelivered(after) == if polls >= Undelivered(steps) then 0 else Undelivered(steps) - polls
    ensures polls > Undelivered(steps) ==> Position(after) == |Logged(steps)|
  {
    if polls == 0 {
      after := steps;
    } else {
      var before := Polled(steps, polls - 1);
      PollProgress(before);
      StepsNext(before, Poll(true));
      after := before + [Poll(true)];
    }
  }

  // The state of a polling session: `n` messages read, the last row id handed out.
  ghost predicate Session(log: seq<AgentMessage>, cursor: nat, n: nat, delivered: seq<seq<RespawnRequest>>, last: nat) {
    && Increasing(log) && ReadsTo(log, cursor, n)
    && delivered == Respawns(log[..n])
    && cursor <= last
    && forall k :: 0 <= k < |log| ==> log[k].id <= last
  }

  lemma AppendKeepsSession(log: seq<AgentMessage>, cursor: nat, n: nat, delivered: seq<seq<RespawnRequest>>,
                           last: nat, m: AgentMessage)
    requires Session(log, cursor, n, delivered, last) && m.id > last
    ensures Session(log + [m], cursor, n, delivered, m.id)
  {
    assert (log + [m])[..n] == log[..n];
  }

  // However polls and new messages interleave, what has been delivered is exactly the
  // respawn messages among the rows read: each once, in order, with nothing unread
  // behind the cursor.
  method PollSession(steps: seq<Step>)
    returns (delivered: seq<seq<RespawnRequest>>, cursor: nat, log: seq<AgentMessage>)
    requires Numbered(Logged(steps))
    ensures log == Logged(steps) && cursor == Cursor(steps) && ReadsTo(log, cursor, Position(steps))
    ensures delivered == Respawns(log[..Position(steps)])
  {
    hide Respawns, Logged, Position, StopAt, Session, ReadsTo, Numbered, Increasing;
    delivered, cursor, log := [], 0, [];
    ghost var n, last: nat := 0, 0;
    NoSteps();
    for i := 0 to |steps|
      invariant log == Logged(steps[..i]) && n == Position(steps[..i])
      invariant Session(log, cursor, n, delivered, last) && cursor == CursorAt(log, 0, 0, n)
      invariant last == if log == [] then 0 else log[|log| - 1].id
    {
      assert steps[..i + 1] == steps[..i] + [steps[i]];
      StepsNext(steps[..i], steps[i]);
      LogGrows(steps, i + 1);
      match steps[i] {
        case Append(m) =>
          NextNumber(Logged(steps), log, m, last);
          AppendKeepsSession(log, cursor, n, delivered, last, m);
          log := log + [m];
          last := m.id;
        case Poll(dbOk) =>
          delivered, cursor, n := PollOnce(log, cursor, dbOk, n, delivered, last);
      }
    }
    assert steps[..|steps|] == steps;
    SessionTells(log, cursor, n, delivered, last);
  }

  lemma NoSteps()
    ensures Logged([]) == [] && Position([]) == 0 && Session([], 0, 0, [], 0)
  {
  }

  lemma SessionTells(log: seq<AgentMessage>, cursor: nat, n: nat, taken: seq<seq<RespawnRequest>>, last: nat)
    requires Session(log, cursor, n, taken, last)
    ensures Increasing(log) && ReadsTo(log, cursor, n) && n <= |log| && taken == Respawns(log[..n])
  {
  }

  lemma NextNumber(all: seq<AgentMessage>, log: seq<AgentMessage>, m: AgentMessage, last: nat)
    requires Numbered(all) && log + [m] <= all
    requires last == if log == [] then 0 else log[|log| - 1].id
    ensures m.id > last
  {
    assert all[|log|] == m && m in all;
    if log != [] {
      assert all[|log| - 1] == log[|log| - 1];
    }
  }

  method PollOnce(log: seq<AgentMessage>, cursor0: nat, dbOk: bool, ghost n0: nat,
                  delivered0: seq<seq<RespawnRequest>>, ghost last: nat)
    returns (delivered: seq<seq<RespawnRequest>>, cursor: nat, ghost n: nat)
    requires Session(log, cursor0, n0, delivered0, last)
    ensures Session(log, cursor, n, delivered, last) && cursor0 <= cursor
    ensures n == (if dbOk then StopAt(log, n0) else n0) && cursor == CursorAt(log, cursor0, n0, n)
  {
    var reqs;
    reqs, cursor, n := CheckRespawnRequests(log, cursor0, dbOk, n0);
    delivered := delivered0;
    if |reqs| > 0 {
      delivered := delivered + [reqs];
    }
  }
}
