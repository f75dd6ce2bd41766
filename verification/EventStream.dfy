// The incremental reader of a streamed answer: blocks end at a blank line, each data line
// is one payload (addon_host_tests/_mcp_protocol_.py:747-769). The format is that of
// section 9.2.5 of the WHATWG HTML Standard, of which this reader takes a subset.
module EventStream {
  import opened Wrappers
  import opened Strings

  // A parsed payload, and whether it holds a result.
  datatype Event = Event(result: bool, body: string)

  const BLANK := "\n\n"

  // ---- Splitting at leftmost blank lines ---------------------------------------------

  datatype Split = Split(blocks: seq<string>, rest: string)

  // The whole text split at once.
  function Blocks(text: string): (r: Split)
    ensures !Contains(r.rest, BLANK)
    decreases |text|
  {
    var i := Find(text, BLANK, 0);
    if i == -1 then Split([], text)
    else
      var tail := Blocks(text[i + 2..]);
      Split([text[..i]] + tail.blocks, tail.rest)
  }

  function Joined(r: Split): string
    decreases |r.blocks|
  {
    if r.blocks == [] then r.rest else r.blocks[0] + BLANK + Joined(Split(r.blocks[1..], r.rest))
  }

  lemma BlocksStep(text: string)
    requires Contains(text, BLANK)
    ensures var i := Find(text, BLANK, 0);
      && 0 <= i && i + 2 <= |text|
      && Blocks(text) == Split([text[..i]] + Blocks(text[i + 2..]).blocks, Blocks(text[i + 2..]).rest)
  {
    hide Find;
  }

  lemma BlocksDone(text: string)
    requires !Contains(text, BLANK)
    ensures Blocks(text) == Split([], text)
  {
    hide Find;
  }

  // Nothing received is lost or moved.
  lemma {:induction false} BlocksJoin(text: string)
    ensures Joined(Blocks(text)) == text
    decreases |text|
  {
    hide Find, Blocks;
    if !Contains(text, BLANK) {
      BlocksDone(text);
    } else {
      BlocksStep(text);
      var i := Find(text, BLANK, 0);
      BlocksJoin(text[i + 2..]);
      assert Blocks(text).blocks[1..] == Blocks(text[i + 2..]).blocks;
      assert text == text[..i] + BLANK + text[i + 2..];
    }
  }

  // The first blank line stays first when more text arrives.
  lemma FindExtended(a: string, b: string)
    requires Contains(a, BLANK)
    ensures Find(a + b, BLANK, 0) == Find(a, BLANK, 0)
  {
    var i := Find(a, BLANK, 0);
    assert (a + b)[i..i + 2] == a[i..i + 2];
    assert At(a + b, BLANK, i);
    forall k | 0 <= k < i ensures !At(a + b, BLANK, k) {
      assert (a + b)[k..k + 2] == a[k..k + 2];
      assert !At(a, BLANK, k);
    }
  }

  // Splitting as text arrives is splitting the whole of it.
  lemma {:induction false} BlocksExtended(a: string, b: string)
    ensures var (before, after) := (Blocks(a), Blocks(Blocks(a).rest + b));
      Blocks(a + b) == Split(before.blocks + after.blocks, after.rest)
    decreases |a|
  {
    hide Find, Blocks;
    if !Contains(a, BLANK) {
      BlocksDone(a);
      assert [] + Blocks(a + b).blocks == Blocks(a + b).blocks;
    } else {
      var i := Find(a, BLANK, 0);
      FindExtended(a, b);
      BlocksStep(a);
      BlocksStep(a + b);
      assert (a + b)[i + 2..] == a[i + 2..] + b && (a + b)[..i] == a[..i];
      BlocksExtended(a[i + 2..], b);
      var tail := Blocks(a[i + 2..]);
      var after := Blocks(tail.rest + b);
      assert [a[..i]] + (tail.blocks + after.blocks) == ([a[..i]] + tail.blocks) + after.blocks;
    }
  }

  // ---- Lines and payloads ----------------------------------------------------------------

  predicate LineEnd(c: char) {
    c in "\n\r\U{000B}\U{000C}\U{001C}\U{001D}\U{001E}\U{0085}\U{2028}\U{2029}"
  }

  function LineLength(s: string): (n: nat)
    ensures n <= |s| && (n < |s| ==> LineEnd(s[n])) && forall i :: 0 <= i < n ==> !LineEnd(s[i])
  {
    if s == "" || LineEnd(s[0]) then 0 else 1 + LineLength(s[1..])
  }

  // str.splitlines: a carriage return and newline end one line together.
  function SplitLines(s: string): seq<string>
    decreases |s|
  {
    if s == "" then [] else
    var n := LineLength(s);
    if n == |s| then [s]
    else [s[..n]] + SplitLines(s[if s[n] == '\r' && n + 1 < |s| && s[n + 1] == '\n' then n + 2 else n + 1..])
  }

  // Free of the ten characters that end a line.
  predicate OneLine(line: string) {
    forall i :: 0 <= i < |line| ==> line[i] !in "\n\r\U{000B}\U{000C}\U{001C}\U{001D}\U{001E}\U{0085}\U{2028}\U{2029}"
  }

  lemma {:induction false} LengthOf(line: string, rest: string)
    requires OneLine(line) && (rest == "" || LineEnd(rest[0]))
    ensures LineLength(line + rest) == |line|
  {
    if line == "" {
      assert line + rest == rest;
    } else {
      LengthOf(line[1..], rest);
      assert (line + rest)[1..] == line[1..] + rest;
    }
  }

  // A line is read up to the character that ends it, a carriage return and newline counting
  // as one; the last one needs none.
  lemma LineSplit(line: string, c: char, rest: string)
    requires OneLine(line) && c in "\n\r\U{000B}\U{000C}\U{001C}\U{001D}\U{001E}\U{0085}\U{2028}\U{2029}"
    requires c == '\r' ==> rest == "" || rest[0] != '\n'
    ensures SplitLines(line + [c] + rest) == [line] + SplitLines(rest)
  {
    var s := line + ([c] + rest);
    assert line + [c] + rest == s;
    LengthOf(line, [c] + rest);
    assert s[..|line|] == line && s[|line|] == c && s[|line| + 1..] == rest;
  }

  lemma ReturnSplit(line: string, rest: string)
    requires OneLine(line)
    ensures SplitLines(line + "\r\n" + rest) == [line] + SplitLines(rest)
  {
    var s := line + ("\r\n" + rest);
    assert line + "\r\n" + rest == s;
    LengthOf(line, "\r\n" + rest);
    assert s[..|line|] == line && s[|line|] == '\r' && s[|line| + 1] == '\n' && s[|line| + 2..] == rest;
  }

  lemma LastSplit(line: string)
    requires OneLine(line) && line != ""
    ensures SplitLines(line) == [line]
  {
    LengthOf(line, "");
    assert line + "" == line;
  }

  const DATA := "data: "

  predicate IsData(line: string) {
    DATA <= line
  }

  type Parser = string -> Option<Event>

  // The payloads of one line: none, one, or a failure to parse.
  function LineEvents(line: string, parse: Parser): Option<seq<Event>> {
    if !IsData(line) then Some([])
    else
      var event := parse(line[|DATA|..]);
      if event.None? then None else Some([event.value])
  }

  function Then(a: Option<seq<Event>>, b: Option<seq<Event>>): Option<seq<Event>> {
    if a.None? || b.None? then None else Some(a.value + b.value)
  }

  function LinesEvents(lines: seq<string>, parse: Parser): Option<seq<Event>> {
    if lines == [] then Some([])
    else Then(LinesEvents(lines[..|lines| - 1], parse), LineEvents(lines[|lines| - 1], parse))
  }

  // The payloads of whole blocks, in order, unless one does not parse.
  function AllEvents(blocks: seq<string>, parse: Parser): Option<seq<Event>> {
    if blocks == [] then Some([])
    else Then(AllEvents(blocks[..|blocks| - 1], parse), LinesEvents(SplitLines(blocks[|blocks| - 1]), parse))
  }

  lemma ThenThen(a: Option<seq<Event>>, b: Option<seq<Event>>, c: Option<seq<Event>>)
    ensures Then(Then(a, b), c) == Then(a, Then(b, c))
  {
    if a.Some? && b.Some? && c.Some? {
      assert (a.value + b.value) + c.value == a.value + (b.value + c.value);
    }
  }

  lemma {:induction false} AllEventsAppend(xs: seq<string>, ys: seq<string>, parse: Parser)
    ensures AllEvents(xs + ys, parse) == Then(AllEvents(xs, parse), AllEvents(ys, parse))
    decreases |ys|
  {
    if ys == [] {
      assert xs + ys == xs;
      var a := AllEvents(xs, parse);
      assert a.Some? ==> a.value + [] == a.value;
    } else {
      var front, y := ys[..|ys| - 1], ys[|ys| - 1];
      AllEventsAppend(xs, front, parse);
      assert (xs + ys)[..|xs + ys| - 1] == xs + front;
      ThenThen(AllEvents(xs, parse), AllEvents(front, parse), LinesEvents(SplitLines(y), parse));
    }
  }

  lemma LinesNone(lines: seq<string>, parse: Parser)
    ensures LinesEvents(lines[..0], parse) == Some([])
  {
  }

  lemma LinesNext(lines: seq<string>, i: nat, parse: Parser)
    requires i < |lines|
    ensures LinesEvents(lines[..i + 1], parse) == Then(LinesEvents(lines[..i], parse), LineEvents(lines[i], parse))
  {
    assert lines[..i + 1][..i] == lines[..i];
  }

  method ReadBlock(block: string, parse: Parser, events: seq<Event>) returns (ok: bool, events': seq<Event>)
    ensures var all := LinesEvents(SplitLines(block), parse);
      (ok <==> all.Some?) && (ok ==> events' == events + all.value)
  {
    hide SplitLines, LinesEvents;
    var lines := SplitLines(block);
    LinesNone(lines, parse);
    events' := events;
    for i := 0 to |lines|
      invariant LinesEvents(lines[..i], parse).Some? && events' == events + LinesEvents(lines[..i], parse).value
    {
      LinesNext(lines, i, parse);
      if IsData(lines[i]) {
        var event := parse(lines[i][|DATA|..]);
        if event.None? {
          NoneStays(lines, i + 1, parse);
          return false, events';
        }
        events' := events' + [event.value];
      }
    }
    assert lines[..|lines|] == lines;
    ok := true;
  }

  lemma {:induction false} NoneStays(lines: seq<string>, n: nat, parse: Parser)
    requires n <= |lines| && LinesEvents(lines[..n], parse).None?
    ensures LinesEvents(lines, parse).None?
    decreases |lines|
  {
    if n == |lines| {
      assert lines[..n] == lines;
    } else {
      assert lines[..|lines| - 1][..n] == lines[..n];
      NoneStays(lines[..|lines| - 1], n, parse);
    }
  }

  lemma AllEventsHead(block: string, rest: seq<string>, parse: Parser)
    ensures AllEvents([block] + rest, parse) == Then(LinesEvents(SplitLines(block), parse), AllEvents(rest, parse))
  {
    AllEventsAppend([block], rest, parse);
    var first := LinesEvents(SplitLines(block), parse);
    hide LinesEvents, SplitLines;
    assert [block][..0] == [];
    assert first.Some? ==> [] + first.value == first.value;
  }

  // Taking one block leaves the rest of the payloads to come.
  lemma BlockTaken(buffer: string, rest: string, block: string, parse: Parser, done: seq<Event>)
    requires Contains(buffer, BLANK)
    requires var i := Find(buffer, BLANK, 0); block == buffer[..i] && rest == buffer[i + 2..]
    ensures Blocks(rest).rest == Blocks(buffer).rest && |rest| < |buffer|
    ensures var first := LinesEvents(SplitLines(block), parse);
      Then(Some(done), AllEvents(Blocks(buffer).blocks, parse)) ==
        if first.None? then None else Then(Some(done + first.value), AllEvents(Blocks(rest).blocks, parse))
  {
    hide Find, Blocks, LinesEvents, SplitLines, AllEvents;
    BlocksStep(buffer);
    AllEventsHead(block, Blocks(rest).blocks, parse);
    ThenThen(Some(done), LinesEvents(SplitLines(block), parse), AllEvents(Blocks(rest).blocks, parse));
  }

  // The inner loop: every complete block is taken out of the buffer.
  method Drain(buffer: string, parse: Parser, events: seq<Event>)
    returns (ok: bool, events': seq<Event>, buffer': string)
    ensures var all := Then(Some(events), AllEvents(Blocks(buffer).blocks, parse));
      (ok <==> all.Some?) && (ok ==> Some(events') == all && buffer' == Blocks(buffer).rest)
  {
    hide Blocks, SplitLines, LinesEvents, AllEvents, Then;
    events', buffer' := events, buffer;
    while Contains(buffer', BLANK)
      invariant Blocks(buffer).rest == Blocks(buffer').rest
      invariant Then(Some(events), AllEvents(Blocks(buffer).blocks, parse)) ==
        Then(Some(events'), AllEvents(Blocks(buffer').blocks, parse))
      decreases |buffer'|
    {
      var i := Find(buffer', BLANK, 0);
      var block, rest := buffer'[..i], buffer'[i + 2..];
      BlockTaken(buffer', rest, block, parse, events');
      ok, events' := ReadBlock(block, parse, events');
      if !ok {
        return;
      }
      buffer' := rest;
    }
    NothingToTake(buffer', events', parse);
    ok := true;
  }

  lemma NothingToTake(buffer: string, events: seq<Event>, parse: Parser)
    requires !Contains(buffer, BLANK)
    ensures Blocks(buffer).rest == buffer && Then(Some(events), AllEvents(Blocks(buffer).blocks, parse)) == Some(events)
  {
    BlocksDone(buffer);
    assert events + [] == events;
  }

  // ---- What a sender means by its blocks ---------------------------------------------------

  // Lines joined by newlines, and blocks of them each followed by a blank line.
  function Lines(lines: seq<string>): string {
    if lines == [] then "" else if |lines| == 1 then lines[0] else lines[0] + "\n" + Lines(lines[1..])
  }

  function Wire(sent: seq<seq<string>>): string {
    if sent == [] then "" else Lines(sent[0]) + "\n\n" + Wire(sent[1..])
  }

  // The lines of all the blocks, in order.
  function AllLines(sent: seq<seq<string>>): seq<string> {
    if sent == [] then [] else sent[0] + AllLines(sent[1..])
  }

  predicate Plain(lines: seq<string>) {
    lines != [] && forall i :: 0 <= i < |lines| ==> lines[i] != "" && OneLine(lines[i])
  }

  // The text is these blocks, of non-empty lines, and no other complete one.
  ghost predicate Sends(text: string, sent: seq<seq<string>>, rest: string) {
    && text == Wire(sent) + rest && !Contains(rest, "\n\n")
    && forall i :: 0 <= i < |sent| ==> Plain(sent[i])
  }

  // What follows "data: " in the lines that begin with it.
  function Payloads(lines: seq<string>): seq<string> {
    if lines == [] then []
    else (if |lines[0]| >= 6 && lines[0][..6] == "data: " then [lines[0][6..]] else []) + Payloads(lines[1..])
  }

  ghost predicate Parsed(payloads: seq<string>, parse: Parser, events: seq<Event>) {
    |events| == |payloads| && forall i :: 0 <= i < |payloads| ==> parse(payloads[i]) == Some(events[i])
  }

  lemma {:induction false} LinesSplit(lines: seq<string>)
    requires Plain(lines)
    ensures SplitLines(Lines(lines)) == lines
  {
    if |lines| == 1 {
      LastSplit(lines[0]);
    } else {
      var rest := lines[1..];
      LinesSplit(rest);
      LineSplit(lines[0], '\n', Lines(rest));
      assert lines == [lines[0]] + rest;
    }
  }

  // Lines without a blank one among them: no two newlines in a row, and none at the end.
  predicate Solid(s: string) {
    && s != "" && s[|s| - 1] != '\n' && s[0] != '\n'
    && forall i :: 0 <= i < |s| - 1 ==> !(s[i] == '\n' && s[i + 1] == '\n')
  }

  lemma {:induction false} LinesSolid(lines: seq<string>)
    requires Plain(lines)
    ensures Solid(Lines(lines))
  {
    if |lines| > 1 {
      LinesSolid(lines[1..]);
      SolidJoined(lines[0], Lines(lines[1..]));
    }
  }

  lemma SolidJoined(line: string, rest: string)
    requires line != "" && OneLine(line) && Solid(rest)
    ensures Solid(line + "\n" + rest)
  {
    var s := line + "\n" + rest;
    forall i | 0 <= i < |s| - 1 ensures !(s[i] == '\n' && s[i + 1] == '\n') {
      if i > |line| {
        assert s[i] == rest[i - |line| - 1] && s[i + 1] == rest[i - |line|];
      }
    }
  }

  // The first blank line is the one after the first block.
  lemma BlankAfter(block: string, rest: string)
    requires Solid(block)
    ensures Find(block + "\n\n" + rest, BLANK, 0) == |block|
  {
    var s := block + "\n\n" + rest;
    assert s[|block|..|block| + 2] == BLANK && At(s, BLANK, |block|);
    forall k | 0 <= k < |block| ensures !At(s, BLANK, k) {
      assert s[k] == block[k] && (k < |block| - 1 ==> s[k + 1] == block[k + 1]);
      assert s[k..k + 2] == [s[k], s[k + 1]];
    }
  }

  // The blocks found are the blocks sent.
  lemma {:induction false} WireSplit(sent: seq<seq<string>>, rest: string)
    requires Sends(Wire(sent) + rest, sent, rest)
    ensures Blocks(Wire(sent) + rest).rest == rest && |Blocks(Wire(sent) + rest).blocks| == |sent|
    ensures forall i :: 0 <= i < |sent| ==> Blocks(Wire(sent) + rest).blocks[i] == Lines(sent[i])
  {
    hide Find, Blocks, Lines;
    if sent == [] {
      assert Wire(sent) + rest == rest;
      BlocksDone(rest);
    } else {
      var block, after := Lines(sent[0]), Wire(sent[1..]) + rest;
      var text := block + "\n\n" + after;
      assert Wire(sent) + rest == text;
      LinesSolid(sent[0]);
      BlankAfter(block, after);
      assert Contains(text, BLANK);
      BlocksStep(text);
      assert text[..|block|] == block && text[|block| + 2..] == after;
      WireSplit(sent[1..], rest);
    }
  }

  lemma {:induction false} PayloadsAppend(xs: seq<string>, ys: seq<string>)
    ensures Payloads(xs + ys) == Payloads(xs) + Payloads(ys)
  {
    if xs == [] {
      assert xs + ys == ys;
    } else {
      PayloadsAppend(xs[1..], ys);
      assert (xs + ys)[1..] == xs[1..] + ys;
    }
  }

  lemma {:induction false} LinesAppend(xs: seq<seq<string>>, ys: seq<seq<string>>)
    ensures AllLines(xs + ys) == AllLines(xs) + AllLines(ys)
  {
    if xs == [] {
      assert xs + ys == ys;
    } else {
      LinesAppend(xs[1..], ys);
      assert (xs + ys)[1..] == xs[1..] + ys;
    }
  }

  ghost predicate SomeUnread(payloads: seq<string>, parse: Parser) {
    exists i :: 0 <= i < |payloads| && parse(payloads[i]).None?
  }

  // The payloads all parse, to these events; or one of them does not parse.
  ghost predicate Read(payloads: seq<string>, parse: Parser, events: Option<seq<Event>>) {
    if events.Some? then Parsed(payloads, parse, events.value) else SomeUnread(payloads, parse)
  }

  lemma ReadBoth(a: seq<string>, b: seq<string>, parse: Parser, x: Option<seq<Event>>, y: Option<seq<Event>>)
    requires Read(a, parse, x) && Read(b, parse, y)
    ensures Read(a + b, parse, Then(x, y))
  {
    if x.None? {
      var i :| 0 <= i < |a| && parse(a[i]).None?;
      assert (a + b)[i] == a[i];
    } else if y.None? {
      var i :| 0 <= i < |b| && parse(b[i]).None?;
      assert (a + b)[|a| + i] == b[i];
    }
  }

  lemma LineRead(line: string, parse: Parser)
    ensures Read(Payloads([line]), parse, LineEvents(line, parse))
  {
    assert Payloads([line][1..]) == [];
    if IsData(line) {
      assert line[..6] == DATA;
      assert Payloads([line])[0] == line[6..];
    }
  }

  lemma {:induction false} LinesRead(lines: seq<string>, parse: Parser)
    ensures Read(Payloads(lines), parse, LinesEvents(lines, parse))
  {
    hide LineEvents, Then, Read;
    if lines == [] {
      NoneRead(parse);
    } else {
      var front, last := lines[..|lines| - 1], lines[|lines| - 1];
      LinesRead(front, parse);
      LineRead(last, parse);
      assert lines == front + [last];
      PayloadsAppend(front, [last]);
      ReadBoth(Payloads(front), Payloads([last]), parse, LinesEvents(front, parse), LineEvents(last, parse));
    }
  }

  lemma NoneRead(parse: Parser)
    ensures Read([], parse, Some([]))
  {
  }

  lemma {:induction false} BlocksRead(blocks: seq<string>, sent: seq<seq<string>>, parse: Parser)
    requires |blocks| == |sent| && forall i :: 0 <= i < |sent| ==> Plain(sent[i]) && blocks[i] == Lines(sent[i])
    ensures Read(Payloads(AllLines(sent)), parse, AllEvents(blocks, parse))
  {
    hide Then, Read, Lines, SplitLines, LinesEvents, Plain;
    if sent == [] {
      NoneRead(parse);
    } else {
      var n := |sent| - 1;
      BlocksRead(blocks[..n], sent[..n], parse);
      LinesSplit(sent[n]);
      LinesRead(sent[n], parse);
      assert sent == sent[..n] + [sent[n]];
      LinesAppend(sent[..n], [sent[n]]);
      OneBlock(sent[n]);
      PayloadsAppend(AllLines(sent[..n]), sent[n]);
      ReadBoth(Payloads(AllLines(sent[..n])), Payloads(sent[n]), parse, AllEvents(blocks[..n], parse),
               LinesEvents(sent[n], parse));
    }
  }

  lemma OneBlock(lines: seq<string>)
    ensures AllLines([lines]) == lines
  {
    assert AllLines([lines][1..]) == [];
  }

  // A text of blocks is read as the payloads of its lines, in order.
  lemma SentIsRead(text: string, sent: seq<seq<string>>, rest: string, parse: Parser)
    requires Sends(text, sent, rest)
    ensures Blocks(text).rest == rest && Read(Payloads(AllLines(sent)), parse, AllEvents(Blocks(text).blocks, parse))
  {
    hide Read, Blocks, AllEvents, Lines, Wire;
    WireSplit(sent, rest);
    BlocksRead(Blocks(text).blocks, sent, parse);
  }

  // ---- The read loop -----------------------------------------------------------------------

  function Concat(chunks: seq<string>): string {
    if chunks == [] then "" else Concat(chunks[..|chunks| - 1]) + chunks[|chunks| - 1]
  }

  // What batch parsing makes of the first n reads.
  function After(chunks: seq<string>, n: nat, parse: Parser): Option<seq<Event>>
    requires n <= |chunks|
  {
    AllEvents(Blocks(Concat(chunks[..n])).blocks, parse)
  }

  predicate EndsInResult(events: Option<seq<Event>>) {
    events.Some? && events.value != [] && events.value[|events.value| - 1].result
  }

  // The reads go on while the clock and the stream do, nothing failed to parse and no
  // answer has arrived.
  ghost predicate GoesOn(chunks: seq<string>, deadline: nat, n: nat, parse: Parser) {
    && n < deadline && n < |chunks| && chunks[n] != ""
    && After(chunks, n, parse).Some? && (n > 0 ==> !EndsInResult(After(chunks, n, parse)))
  }

  lemma AfterNext(chunks: seq<string>, n: nat, parse: Parser)
    requires n < |chunks|
    ensures var buffer := Blocks(Concat(chunks[..n])).rest + chunks[n];
      && Blocks(Concat(chunks[..n + 1])).rest == Blocks(buffer).rest
      && After(chunks, n + 1, parse) == Then(After(chunks, n, parse), AllEvents(Blocks(buffer).blocks, parse))
  {
    hide Blocks, AllEvents;
    assert chunks[..n + 1][..n] == chunks[..n];
    var text := Concat(chunks[..n]);
    BlocksExtended(text, chunks[n]);
    AllEventsAppend(Blocks(text).blocks, Blocks(Blocks(text).rest + chunks[n]).blocks, parse);
  }

  // Reading as the bytes arrive is batch parsing of everything read, and it stops at the
  // first read whose last event is a result, or where the stream, the clock or a payload
  // ends it. A payload that does not parse raises.
  method ReadEvents(chunks: seq<string>, deadline: nat, parse: Parser)
    returns (raised: bool, events: seq<Event>, buffer: string, n: nat)
    ensures n <= |chunks| && (forall m :: 0 <= m < n ==> GoesOn(chunks, deadline, m, parse))
    ensures raised <==> After(chunks, n, parse).None?
    ensures !GoesOn(chunks, deadline, n, parse)
    ensures !raised ==> Some(events) == After(chunks, n, parse)
    ensures !raised ==> buffer == Blocks(Concat(chunks[..n])).rest && !Contains(buffer, BLANK)
    ensures forall sent, rest :: Sends(Concat(chunks[..n]), sent, rest) ==>
      if raised then SomeUnread(Payloads(AllLines(sent)), parse)
      else Parsed(Payloads(AllLines(sent)), parse, events) && buffer == rest
    ensures !raised && n < deadline && n < |chunks| && chunks[n] != "" ==>
      events != [] && events[|events| - 1].result
    ensures forall m :: 0 < m < n ==> NoResultYet(After(chunks, m, parse))
  {
    hide Blocks, AllEvents, Concat, Sends, Payloads, AllLines;
    StartEmpty(chunks, parse);
    events, buffer, n, raised := [], "", 0, false;
    while n < deadline
      invariant n <= |chunks| && forall m :: 0 <= m < n ==> GoesOn(chunks, deadline, m, parse)
      invariant Some(events) == After(chunks, n, parse) && buffer == Blocks(Concat(chunks[..n])).rest
      invariant n > 0 ==> !EndsInResult(Some(events))
    {
      if n == |chunks| || chunks[n] == "" {
        break;
      }
      AfterNext(chunks, n, parse);
      buffer := buffer + chunks[n];
      var ok;
      ok, events, buffer := Drain(buffer, parse, events);
      n := n + 1;
      if !ok {
        raised := true;
        SentByNow(chunks, deadline, n, parse);
        return;
      }
      if LastIsResult(events) {
        SentByNow(chunks, deadline, n, parse);
        return;
      }
    }
    SentByNow(chunks, deadline, n, parse);
  }

  // Whatever blocks the text read so far is made of.
  lemma SentByNow(chunks: seq<string>, deadline: nat, n: nat, parse: Parser)
    requires n <= |chunks| && forall m :: 0 <= m < n ==> GoesOn(chunks, deadline, m, parse)
    ensures forall sent, rest :: Sends(Concat(chunks[..n]), sent, rest) ==>
      Blocks(Concat(chunks[..n])).rest == rest && Read(Payloads(AllLines(sent)), parse, After(chunks, n, parse))
    ensures forall m :: 0 < m < n ==> NoResultYet(After(chunks, m, parse))
  {
    hide Blocks, AllEvents, Concat, Sends, Payloads, AllLines, Read;
    forall sent, rest | Sends(Concat(chunks[..n]), sent, rest)
      ensures Blocks(Concat(chunks[..n])).rest == rest
      ensures Read(Payloads(AllLines(sent)), parse, After(chunks, n, parse))
    {
      SentIsRead(Concat(chunks[..n]), sent, rest, parse);
    }
    forall m | 0 < m < n ensures NoResultYet(After(chunks, m, parse)) {
      assert GoesOn(chunks, deadline, m, parse);
    }
  }

  // Everything parsed, and the last payload so far is no result.
  predicate NoResultYet(events: Option<seq<Event>>) {
    events.Some? && (events.value == [] || !events.value[|events.value| - 1].result)
  }

  predicate LastIsResult(events: seq<Event>)
    ensures LastIsResult(events) <==> EndsInResult(Some(events))
  {
    events != [] && events[|events| - 1].result
  }

  lemma StartEmpty(chunks: seq<string>, parse: Parser)
    ensures After(chunks, 0, parse) == Some([]) && Blocks(Concat(chunks[..0])).rest == ""
  {
    assert Find("", BLANK, 0) == -1;
  }

  // Stopping early loses only what comes later: the payloads read so far begin the payloads
  // of any longer reading that parses.
  lemma {:induction false} EarlierIsPrefix(chunks: seq<string>, n: nat, m: nat, parse: Parser)
    requires n <= m <= |chunks| && After(chunks, m, parse).Some?
    ensures After(chunks, n, parse).Some? && After(chunks, n, parse).value <= After(chunks, m, parse).value
    decreases m
  {
    hide After, Blocks, AllEvents;
    if n < m {
      AfterNext(chunks, m - 1, parse);
      EarlierIsPrefix(chunks, n, m - 1, parse);
    }
  }

  // ---- One text cut up in two ways ----------------------------------------------------------

  lemma {:induction false} ConcatSplit(chunks: seq<string>, n: nat)
    requires n <= |chunks|
    ensures Concat(chunks) == Concat(chunks[..n]) + Concat(chunks[n..])
    decreases |chunks|
  {
    if n == |chunks| {
      assert chunks[..n] == chunks && chunks[n..] == [];
    } else {
      var front := chunks[..|chunks| - 1];
      ConcatSplit(front, n);
      assert front[..n] == chunks[..n] && chunks[n..][..|chunks[n..]| - 1] == front[n..];
    }
  }

  // How many blocks the first n reads complete.
  function Completed(chunks: seq<string>, n: nat): nat
    requires n <= |chunks|
  {
    |Blocks(Concat(chunks[..n])).blocks|
  }

  // The payloads of the first k blocks of the whole text.
  function Upto(chunks: seq<string>, k: nat, parse: Parser): Option<seq<Event>>
    requires k <= |Blocks(Concat(chunks)).blocks|
  {
    AllEvents(Blocks(Concat(chunks)).blocks[..k], parse)
  }

  lemma ReadBlocks(chunks: seq<string>, n: nat, parse: Parser)
    requires n <= |chunks|
    ensures Completed(chunks, n) <= |Blocks(Concat(chunks)).blocks|
    ensures After(chunks, n, parse) == Upto(chunks, Completed(chunks, n), parse)
  {
    hide Blocks, AllEvents, Concat;
    ConcatSplit(chunks, n);
    BlocksExtended(Concat(chunks[..n]), Concat(chunks[n..]));
    var all, read := Blocks(Concat(chunks)).blocks, Blocks(Concat(chunks[..n])).blocks;
    assert all[..|read|] == read;
  }

  // Each piece completes one block at most, as pieces of one character do.
  ghost predicate BlockByBlock(chunks: seq<string>) {
    forall n :: 0 <= n < |chunks| ==> Completed(chunks, n + 1) <= Completed(chunks, n) + 1
  }

  lemma BlankBefore(rest: string, c: char, i: nat)
    requires i + 2 <= |rest| && At(rest + [c], BLANK, i)
    ensures Contains(rest, BLANK)
  {
    assert (rest + [c])[i..i + 2] == rest[i..i + 2];
    assert At(rest, BLANK, i);
    hide Find;
  }

  lemma CharCompletes(rest: string, c: char)
    requires !Contains(rest, BLANK)
    ensures |Blocks(rest + [c]).blocks| <= 1
  {
    hide Find, Blocks;
    var text := rest + [c];
    if !Contains(text, BLANK) {
      BlocksDone(text);
    } else {
      var i := Find(text, BLANK, 0);
      BlocksStep(text);
      if i + 2 <= |rest| {
        BlankBefore(rest, c, i);
      }
      assert text[i + 2..] == "" && |BLANK| == 2;
      BlocksDone("");
    }
  }

  lemma CharsBlockByBlock(chunks: seq<string>)
    requires forall n :: 0 <= n < |chunks| ==> |chunks[n]| == 1
    ensures BlockByBlock(chunks)
  {
    hide Blocks, Concat;
    forall n | 0 <= n < |chunks| ensures Completed(chunks, n + 1) <= Completed(chunks, n) + 1 {
      var text := Concat(chunks[..n]);
      ConcatLast(chunks, n);
      BlocksExtended(text, chunks[n]);
      CharCompletes(Blocks(text).rest, chunks[n][0]);
      assert chunks[n] == [chunks[n][0]];
    }
  }

  lemma ConcatLast(chunks: seq<string>, n: nat)
    requires n < |chunks|
    ensures Concat(chunks[..n + 1]) == Concat(chunks[..n]) + chunks[n]
  {
    assert chunks[..n + 1][..n] == chunks[..n];
  }

  // A reading that a result ends.
  ghost predicate StopsOnResult(chunks: seq<string>, deadline: nat, n: nat, parse: Parser) {
    && 0 < n <= |chunks| && EndsInResult(After(chunks, n, parse))
    && forall m :: 0 <= m < n ==> GoesOn(chunks, deadline, m, parse)
  }

  lemma NoneCompleted(chunks: seq<string>)
    ensures Completed(chunks, 0) == 0
  {
    assert Concat(chunks[..0]) == "" && !Contains("", BLANK);
    BlocksDone("");
  }

  lemma {:induction false} CompletedAt(chunks: seq<string>, n: nat, k: nat) returns (m: nat)
    requires BlockByBlock(chunks) && n <= |chunks| && k < Completed(chunks, n)
    ensures m < n && Completed(chunks, m) == k
  {
    hide Completed;
    NoneCompleted(chunks);
    if n > 0 {
      assert Completed(chunks, n - 1 + 1) <= Completed(chunks, n - 1) + 1;
      if Completed(chunks, n - 1) == k {
        m := n - 1;
      } else {
        m := CompletedAt(chunks, n - 1, k);
      }
    }
  }

  // Reading block by block stops with the first block that leaves a result last.
  lemma FirstResult(chunks: seq<string>, deadline: nat, n: nat, k: nat, parse: Parser)
    requires BlockByBlock(chunks) && StopsOnResult(chunks, deadline, n, parse)
    requires k < Completed(chunks, n)
    ensures k <= |Blocks(Concat(chunks)).blocks| && !EndsInResult(Upto(chunks, k, parse))
  {
    hide Completed, Blocks, EndsInResult, After, Upto, BlockByBlock;
    var m := CompletedAt(chunks, n, k);
    ReadBlocks(chunks, m, parse);
    assert GoesOn(chunks, deadline, m, parse);
    if m == 0 {
      StartEmpty(chunks, parse);
      NoResult();
    }
  }

  lemma NoResult()
    ensures !EndsInResult(Some([]))
  {
  }

  // One text cut up in two ways, the first of them block by block, each reading ended by a
  // result: the other reading has the same payloads and then those of the blocks that its
  // last piece completed beyond the first result.
  lemma CuttingsCompared(chunks: seq<string>, others: seq<string>, deadline: nat, n: nat,
                         deadline': nat, n': nat, parse: Parser)
    requires Concat(chunks) == Concat(others) && BlockByBlock(chunks)
    requires StopsOnResult(chunks, deadline, n, parse) && StopsOnResult(others, deadline', n', parse)
    ensures var (k, k', blocks) := (Completed(chunks, n), Completed(others, n'), Blocks(Concat(chunks)).blocks);
      && k <= k' <= |blocks|
      && After(others, n', parse) == Then(After(chunks, n, parse), AllEvents(blocks[k..k'], parse))
  {
    hide Completed, Blocks, EndsInResult, After, AllEvents, BlockByBlock, GoesOn, Concat;
    ReadBlocks(chunks, n, parse);
    ReadBlocks(others, n', parse);
    var k, k', blocks := Completed(chunks, n), Completed(others, n'), Blocks(Concat(chunks)).blocks;
    if k' < k {
      FirstResult(chunks, deadline, n, k', parse);
    }
    AllEventsAppend(blocks[..k], blocks[k..k'], parse);
    assert blocks[..k] + blocks[k..k'] == blocks[..k'];
  }

  // Two block by block cuttings of one text, each ended by a result, give the same payloads.
  lemma ChunkingDoesNotMatter(chunks: seq<string>, others: seq<string>, deadline: nat, n: nat,
                              deadline': nat, n': nat, parse: Parser)
    requires Concat(chunks) == Concat(others) && BlockByBlock(chunks) && BlockByBlock(others)
    requires StopsOnResult(chunks, deadline, n, parse) && StopsOnResult(others, deadline', n', parse)
    ensures After(chunks, n, parse) == After(others, n', parse)
  {
    hide Completed, Blocks, EndsInResult, After, AllEvents, BlockByBlock, GoesOn, Concat;
    CuttingsCompared(chunks, others, deadline, n, deadline', n', parse);
    CuttingsCompared(others, chunks, deadline', n', deadline, n, parse);
    ReadBlocks(chunks, n, parse);
    ReadBlocks(others, n', parse);
  }
}
