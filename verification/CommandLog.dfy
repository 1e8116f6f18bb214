// Ingestion of a growing command log by byte offset (internal/recorder/recorder.go).
// CommandLines is the parser, CommandLogModel the loop against a growing file,
// CommandLog the loop itself.

module CommandLines {
  import opened Lists
  import opened Wrappers
  import opened StreamFrames

  const NEWLINE: byte := 10

  datatype Command = Command(ts: int, user: string, cwd: string, cmd: string, exit: int)

  // What the JSON decoder makes of a line; a line without a time counts as unreadable.
  type Decoder = bytes -> Option<Command>

  predicate IsSpace(b: byte) {
    b == 32 || 9 <= b <= 13
  }

  predicate Blank(line: bytes) {
    forall b | b in line :: IsSpace(b)
  }

  function NewlineFrom(data: bytes): (i: Option<nat>)
    ensures i.Some? ==> i.value < |data| && data[i.value] == NEWLINE && NEWLINE !in data[..i.value]
    ensures i.None? <==> NEWLINE !in data
  {
    if data == [] then None
    else if data[0] == NEWLINE then Some(0)
    else
      match NewlineFrom(data[1..])
      case None => None
      case Some(i) =>
        assert data[..i + 1] == [data[0]] + data[1..][..i];
        Some(i + 1)
  }

  // bytes.Split on newlines: the text after the last one is a line too.
  function Lines(data: bytes): seq<bytes> {
    match NewlineFrom(data)
    case None => [data]
    case Some(i) => [data[..i]] + Lines(data[i + 1..])
  }

  datatype Parsed = Parsed(entries: seq<Command>, skipped: nat)

  function Both(a: Parsed, b: Parsed): Parsed {
    Parsed(a.entries + b.entries, a.skipped + b.skipped)
  }

  function ParsedLine(line: bytes, decode: Decoder): Parsed {
    if Blank(line) then Parsed([], 0)
    else
      match decode(line)
      case None => Parsed([], 1)
      case Some(entry) => Parsed([entry], 0)
  }

  const NONE := Parsed([], 0)

  // What a line gives, as a value: the laws below need only that an empty line gives
  // nothing, and hold for every decoder.
  type Reader = bytes -> Parsed

  function Reading(decode: Decoder): (read: Reader)
    ensures SkipsEmpty(read)
  {
    assert Blank([]);
    (line: bytes) => ParsedLine(line, decode)
  }

  predicate SkipsEmpty(read: Reader) {
    read([]) == NONE
  }

  function ParsedLines(lines: seq<bytes>, read: Reader): Parsed {
    if lines == [] then NONE
    else Both(ParsedLines(lines[..|lines| - 1], read), read(lines[|lines| - 1]))
  }

  function ParsedAll(data: bytes, read: Reader): Parsed {
    ParsedLines(Lines(data), read)
  }

  // ----- what a log says, line by line

  predicate Readable(line: bytes, decode: Decoder) {
    !Blank(line) && decode(line).Some?
  }

  predicate Unreadable(line: bytes, decode: Decoder) {
    !Blank(line) && decode(line).None?
  }

  // The indexes of the readable lines, in order.
  ghost predicate AreReadable(lines: seq<bytes>, decode: Decoder, at: seq<nat>) {
    && (forall j | 0 <= j < |at| :: at[j] < |lines| && Readable(lines[at[j]], decode))
    && (forall j, k | 0 <= j < k < |at| :: at[j] < at[k])
    && (forall i | 0 <= i < |lines| && Readable(lines[i], decode) :: i in at)
  }

  ghost predicate AreDecoded(lines: seq<bytes>, decode: Decoder, at: seq<nat>, entries: seq<Command>) {
    |entries| == |at| && forall j | 0 <= j < |at| :: at[j] < |lines| && decode(lines[at[j]]) == Some(entries[j])
  }

  function UnreadableOf(lines: seq<bytes>, decode: Decoder): set<nat> {
    set i: nat | i < |lines| && Unreadable(lines[i], decode)
  }

  // The entries are what the readable lines decode to, in order and one for each; the
  // count is that of the lines neither blank nor readable.
  ghost predicate Collects(lines: seq<bytes>, decode: Decoder, entries: seq<Command>, skipped: nat) {
    Reads(lines, decode, entries) && skipped == |UnreadableOf(lines, decode)|
  }

  ghost predicate Reads(lines: seq<bytes>, decode: Decoder, entries: seq<Command>) {
    exists at :: ReadsAt(lines, decode, at, entries)
  }

  ghost predicate ReadsAt(lines: seq<bytes>, decode: Decoder, at: seq<nat>, entries: seq<Command>) {
    AreReadable(lines, decode, at) && AreDecoded(lines, decode, at, entries)
  }

  lemma UnreadableKeeps(lines: seq<bytes>, longer: seq<bytes>, decode: Decoder, at: seq<nat>)
    requires |longer| == |lines| + 1 && (forall i | 0 <= i < |lines| :: longer[i] == lines[i])
    requires AreReadable(lines, decode, at) && !Readable(longer[|lines|], decode)
    ensures AreReadable(longer, decode, at)
  {
  }

  lemma ReadableAdds(lines: seq<bytes>, longer: seq<bytes>, decode: Decoder, at: seq<nat>)
    requires |longer| == |lines| + 1 && (forall i | 0 <= i < |lines| :: longer[i] == lines[i])
    requires AreReadable(lines, decode, at) && Readable(longer[|lines|], decode)
    ensures AreReadable(longer, decode, at + [|lines|])
  {
    var at' := at + [|lines|];
    forall i | 0 <= i < |longer| && Readable(longer[i], decode) ensures i in at' {
      if i < |lines| { assert i in at; } else { assert at'[|at|] == i; }
    }
  }

  lemma ReadableNext(lines: seq<bytes>, line: bytes, decode: Decoder, at: seq<nat>)
    requires AreReadable(lines, decode, at)
    ensures AreReadable(lines + [line], decode, if Readable(line, decode) then at + [|lines|] else at)
  {
    if Readable(line, decode) {
      ReadableAdds(lines, lines + [line], decode, at);
    } else {
      UnreadableKeeps(lines, lines + [line], decode, at);
    }
  }

  lemma DecodedNext(lines: seq<bytes>, line: bytes, decode: Decoder, at: seq<nat>, entries: seq<Command>)
    requires AreDecoded(lines, decode, at, entries)
    ensures AreDecoded(lines + [line], decode, at, entries)
    ensures Readable(line, decode) ==> AreDecoded(lines + [line], decode, at + [|lines|], entries + [decode(line).value])
  {
  }

  lemma UnreadableNext(lines: seq<bytes>, line: bytes, decode: Decoder)
    ensures UnreadableOf(lines + [line], decode)
            == UnreadableOf(lines, decode) + if Unreadable(line, decode) then {|lines|} else {}
    ensures |UnreadableOf(lines + [line], decode)| == |UnreadableOf(lines, decode)| + if Unreadable(line, decode) then 1 else 0
  {
    assert forall i | 0 <= i < |lines| :: (lines + [line])[i] == lines[i];
    assert |lines| !in UnreadableOf(lines, decode);
  }

  lemma ReadsNext(lines: seq<bytes>, line: bytes, decode: Decoder, at: seq<nat>, entries: seq<Command>)
    requires ReadsAt(lines, decode, at, entries)
    ensures Reads(lines + [line], decode, if Readable(line, decode) then entries + [decode(line).value] else entries)
  {
    ReadableNext(lines, line, decode, at);
    DecodedNext(lines, line, decode, at, entries);
    if Readable(line, decode) {
      assert ReadsAt(lines + [line], decode, at + [|lines|], entries + [decode(line).value]);
    } else {
      assert ReadsAt(lines + [line], decode, at, entries);
    }
  }

  lemma CollectsNext(lines: seq<bytes>, line: bytes, decode: Decoder, entries: seq<Command>, skipped: nat)
    requires Collects(lines, decode, entries, skipped)
    ensures Collects(lines + [line], decode,
                     if Readable(line, decode) then entries + [decode(line).value] else entries,
                     if Unreadable(line, decode) then skipped + 1 else skipped)
  {
    var at :| ReadsAt(lines, decode, at, entries);
    ReadsNext(lines, line, decode, at, entries);
    UnreadableNext(lines, line, decode);
  }

  lemma ReadingGives(line: bytes, decode: Decoder)
    ensures Reading(decode)(line) == Parsed(if Readable(line, decode) then [decode(line).value] else [],
                                            if Unreadable(line, decode) then 1 else 0)
  {
  }

  lemma ParsedNextCollects(lines: seq<bytes>, line: bytes, decode: Decoder, p: Parsed, given: Parsed)
    requires Collects(lines, decode, p.entries, p.skipped)
    requires given == Parsed(if Readable(line, decode) then [decode(line).value] else [], if Unreadable(line, decode) then 1 else 0)
    ensures Collects(lines + [line], decode, Both(p, given).entries, Both(p, given).skipped)
  {
    CollectsNext(lines, line, decode, p.entries, p.skipped);
    assert p.entries + [] == p.entries;
  }

  lemma NothingCollects(decode: Decoder)
    ensures Collects([], decode, [], 0)
  {
    assert ReadsAt([], decode, [], []);
  }

  lemma {:induction false} ParsedCollects(lines: seq<bytes>, decode: Decoder, read: Reader)
    requires read == Reading(decode)
    ensures Collects(lines, decode, ParsedLines(lines, read).entries, ParsedLines(lines, read).skipped)
  {
    if lines == [] {
      NothingCollects(decode);
    } else {
      var init, last := lines[..|lines| - 1], lines[|lines| - 1];
      ParsedCollects(init, decode, read);
      ReadingGives(last, decode);
      ParsedNextCollects(init, last, decode, ParsedLines(init, read), read(last));
      assert lines == init + [last];
    }
  }

  lemma {:induction false} IndexesGrow(at: seq<nat>, j: nat)
    requires j < |at| && forall i, k | 0 <= i < k < |at| :: at[i] < at[k]
    ensures j <= at[j]
  {
    if j > 0 { IndexesGrow(at, j - 1); }
  }

  lemma AtMostOne(at: seq<nat>)
    requires (forall j | 0 <= j < |at| :: at[j] < 1) && forall j, k | 0 <= j < k < |at| :: at[j] < at[k]
    ensures |at| <= 1
  {
    if 1 < |at| { IndexesGrow(at, 1); }
  }

  lemma OneLineReads(line: bytes, decode: Decoder, at: seq<nat>, entries: seq<Command>)
    requires ReadsAt([line], decode, at, entries)
    ensures entries == if Readable(line, decode) then [decode(line).value] else []
  {
    AtMostOne(at);
    if Readable(line, decode) {
      assert [line][0] == line;
      assert 0 in at;
      assert at == [0];
      assert entries == [decode(line).value];
    } else {
      NoneReadable([line], decode, at);
      assert entries == [];
    }
  }

  lemma NoneReadable(lines: seq<bytes>, decode: Decoder, at: seq<nat>)
    requires AreReadable(lines, decode, at) && forall i | 0 <= i < |lines| :: !Readable(lines[i], decode)
    ensures at == []
  {
    if at != [] { FirstReadable(lines, decode, at); }
  }

  lemma FirstReadable(lines: seq<bytes>, decode: Decoder, at: seq<nat>)
    requires AreReadable(lines, decode, at) && at != []
    ensures at[0] < |lines| && Readable(lines[at[0]], decode)
  {
  }

  // One line by itself gives its entry, or counts as unreadable, or gives neither.
  lemma OneLineCollects(line: bytes, decode: Decoder, entries: seq<Command>, skipped: nat)
    requires NEWLINE !in line && Collects(Lines(line), decode, entries, skipped)
    ensures entries == (if Readable(line, decode) then [decode(line).value] else [])
    ensures skipped == (if Unreadable(line, decode) then 1 else 0)
  {
    assert Lines(line) == [line] == [] + [line];
    var at :| ReadsAt([line], decode, at, entries);
    OneLineReads(line, decode, at, entries);
    UnreadableNext([], line, decode);
  }

  // What splitting undoes: the lines with a newline between each and the next.
  function Joined(lines: seq<bytes>): bytes
    requires lines != []
  {
    if |lines| == 1 then lines[0] else lines[0] + [NEWLINE] + Joined(lines[1..])
  }

  // The lines are the text, cut at its newlines and nowhere else.
  lemma {:induction false} LinesAreJoined(data: bytes)
    ensures Lines(data) != [] && Joined(Lines(data)) == data
    ensures forall i | 0 <= i < |Lines(data)| :: NEWLINE !in Lines(data)[i]
    decreases |data|
  {
    var at := NewlineFrom(data);
    if at.Some? {
      var i := at.value;
      LinesAreJoined(data[i + 1..]);
      assert data == data[..i] + [NEWLINE] + data[i + 1..];
      var rest := Lines(data[i + 1..]);
      assert ([data[..i]] + rest)[1..] == rest;
    }
  }

  lemma ParsedAllCollects(data: bytes, decode: Decoder)
    ensures var p := ParsedAll(data, Reading(decode)); Collects(Lines(data), decode, p.entries, p.skipped)
  {
    ParsedCollects(Lines(data), decode, Reading(decode));
  }

  method Parse(data: bytes, decode: Decoder) returns (entries: seq<Command>, skipped: nat)
    ensures Parsed(entries, skipped) == ParsedAll(data, Reading(decode))
    ensures Collects(Lines(data), decode, entries, skipped)
  {
    entries, skipped := ParseLines(data, decode);
    ParsedAllCollects(data, decode);
  }

  // The loop over the lines.
  method ParseLines(data: bytes, decode: Decoder) returns (entries: seq<Command>, skipped: nat)
    ensures Parsed(entries, skipped) == ParsedAll(data, Reading(decode))
  {
    entries, skipped := [], 0;
    var lines := Lines(data);
    ghost var read := Reading(decode);
    for i := 0 to |lines|
      invariant Parsed(entries, skipped) == ParsedLines(lines[..i], read)
    {
      ParsedLinesTake(lines, i, read);
      assert entries + [] == entries;
      if Blank(lines[i]) { continue; }
      var line := decode(lines[i]);
      if line.None? {
        skipped := skipped + 1;
        continue;
      }
      entries := entries + [line.value];
    }
    assert lines[..|lines|] == lines;
  }

  // Empty, or ending in a newline.
  predicate WholeLines(data: bytes) {
    data == [] || data[|data| - 1] == NEWLINE
  }

  lemma {:induction false} LinesJoin(a: bytes, b: bytes)
    requires WholeLines(a)
    ensures |Lines(a)| > 0 && Lines(a)[|Lines(a)| - 1] == []
    ensures Lines(a + b) == Lines(a)[..|Lines(a)| - 1] + Lines(b)
  {
    if a == [] {
      assert a + b == b;
    } else {
      assert a[|a| - 1] in a;
      var i := NewlineFrom(a).value;
      LinesStep(a, b);
      LinesStep(a, []);
      assert a + [] == a && a[i + 1..] + [] == a[i + 1..];
      LinesJoin(a[i + 1..], b);
      FrontOf(a[..i], Lines(a[i + 1..]), Lines(b));
    }
  }

  lemma LinesStep(a: bytes, b: bytes)
    requires NewlineFrom(a).Some?
    ensures var i := NewlineFrom(a).value; Lines(a + b) == [a[..i]] + Lines(a[i + 1..] + b)
  {
    var i := NewlineFrom(a).value;
    NewlineStays(a, b);
    CutShorter(a, b, i);
    CutShorter(a, b, i + 1);
    FirstLine(a + b, i, a[..i], a[i + 1..] + b);
  }

  lemma FirstLine(data: bytes, i: nat, line: bytes, rest: bytes)
    requires NewlineFrom(data) == Some(i) && line == data[..i] && rest == data[i + 1..]
    ensures Lines(data) == [line] + Lines(rest)
  {
  }

  lemma CutShorter(a: bytes, b: bytes, n: nat)
    requires n <= |a|
    ensures (a + b)[..n] == a[..n] && (a + b)[n..] == a[n..] + b
  {
  }

  lemma FrontOf(first: bytes, rest: seq<bytes>, more: seq<bytes>)
    requires rest != []
    ensures var all := [first] + rest;
            all[|all| - 1] == rest[|rest| - 1] && [first] + (rest[..|rest| - 1] + more) == all[..|all| - 1] + more
  {
    var all := [first] + rest;
    assert all[..|all| - 1] == [first] + rest[..|rest| - 1];
  }

  lemma {:induction false} NewlineStays(a: bytes, b: bytes)
    requires NewlineFrom(a).Some?
    ensures NewlineFrom(a + b) == NewlineFrom(a)
  {
    if a[0] != NEWLINE {
      assert (a + b)[1..] == a[1..] + b;
      NewlineStays(a[1..], b);
    }
  }

  lemma ParsedLinesNext(lines: seq<bytes>, line: bytes, read: Reader)
    ensures ParsedLines(lines + [line], read) == Both(ParsedLines(lines, read), read(line))
  {
    assert (lines + [line])[..|lines|] == lines;
  }

  lemma ParsedLinesTake(lines: seq<bytes>, i: nat, read: Reader)
    requires i < |lines|
    ensures ParsedLines(lines[..i + 1], read) == Both(ParsedLines(lines[..i], read), read(lines[i]))
  {
    TakeNext(lines, i);
    ParsedLinesNext(lines[..i], lines[i], read);
  }

  lemma BothIsAssociative(a: Parsed, b: Parsed, c: Parsed)
    ensures Both(Both(a, b), c) == Both(a, Both(b, c)) && Both(a, NONE) == a == Both(NONE, a)
  {
    assert (a.entries + b.entries) + c.entries == a.entries + (b.entries + c.entries);
    assert a.entries + [] == a.entries == [] + a.entries;
  }

  lemma {:induction false} ParsedLinesJoin(a: seq<bytes>, b: seq<bytes>, read: Reader)
    ensures ParsedLines(a + b, read) == Both(ParsedLines(a, read), ParsedLines(b, read))
  {
    if b == [] {
      assert a + b == a;
      BothIsAssociative(ParsedLines(a, read), NONE, NONE);
    } else {
      var n := |b| - 1;
      ParsedLinesJoin(a, b[..n], read);
      AppendLast(a, b);
      ParsedLinesNext(a + b[..n], b[n], read);
      BothIsAssociative(ParsedLines(a, read), ParsedLines(b[..n], read), read(b[n]));
    }
  }

  // A text cut after a newline parses in two parts.
  lemma ParseJoins(a: bytes, b: bytes, read: Reader)
    requires WholeLines(a) && SkipsEmpty(read)
    ensures ParsedAll(a + b, read) == Both(ParsedAll(a, read), ParsedAll(b, read))
  {
    LinesJoin(a, b);
    var front := Lines(a)[..|Lines(a)| - 1];
    ParsedLinesJoin(front, Lines(b), read);
    assert Lines(a) == front + [[]];
    ParsedLinesNext(front, [], read);
    BothIsAssociative(ParsedLines(front, read), NONE, NONE);
  }

  lemma ParsedNothing(data: bytes, read: Reader)
    requires SkipsEmpty(read) && data == []
    ensures ParsedAll(data, read) == NONE
  {
    ParsedOneLine(data, read);
  }

  lemma ParsedOneLine(line: bytes, read: Reader)
    requires NEWLINE !in line
    ensures ParsedAll(line, read) == read(line)
  {
    assert Lines(line) == [line] == [] + [line];
    ParsedLinesNext([], line, read);
    BothIsAssociative(read(line), NONE, NONE);
  }

  // Cut inside a line it need not.
  lemma ParseNeedsWholeLines(a: bytes, b: bytes, read: Reader)
    requires NEWLINE !in a && NEWLINE !in b && read(a + b) != Both(read(a), read(b))
    ensures ParsedAll(a + b, read) != Both(ParsedAll(a, read), ParsedAll(b, read))
  {
    ParsedOneLine(a, read);
    ParsedOneLine(b, read);
    ParsedOneLine(a + b, read);
  }

  // Up to and with the last newline.
  function Complete(data: bytes): (whole: bytes)
    ensures whole <= data && WholeLines(whole) && NEWLINE !in data[|whole|..]
  {
    if data == [] || data[|data| - 1] == NEWLINE then data
    else
      var whole := Complete(data[..|data| - 1]);
      assert data[|whole|..] == data[..|data| - 1][|whole|..] + [data[|data| - 1]];
      whole
  }

  // The parser as a value, and the law ingestion rests on.
  type Parser = bytes -> Parsed

  function Parsing(read: Reader): Parser {
    (data: bytes) => ParsedAll(data, read)
  }

  ghost predicate JoinsAt(parse: Parser, a: bytes, b: bytes) {
    (a == [] ==> parse(a) == NONE) && (WholeLines(a) ==> parse(a + b) == Both(parse(a), parse(b)))
  }

  ghost predicate Joins(parse: Parser) {
    forall a, b :: JoinsAt(parse, a, b)
  }

  lemma ParsingJoins(read: Reader)
    requires SkipsEmpty(read)
    ensures Joins(Parsing(read))
  {
    forall a, b
      ensures JoinsAt(Parsing(read), a, b)
    {
      ParsingJoinsAt(read, a, b);
    }
  }

  lemma ParsingIs(read: Reader, data: bytes)
    ensures Parsing(read)(data) == ParsedAll(data, read)
  {
  }

  lemma ParsingJoinsAt(read: Reader, a: bytes, b: bytes)
    requires SkipsEmpty(read)
    ensures JoinsAt(Parsing(read), a, b)
  {
    ParsingIs(read, a);
    ParsingIs(read, b);
    ParsingIs(read, a + b);
    if WholeLines(a) {
      ParseJoins(a, b, read);
      if |a| == 0 { ParsedNothing(a, read); }
    }
  }
}

module CommandLogModel {
  import opened Wrappers
  import opened StreamFrames
  import opened CommandLines

  // What running tail on the node gave: it may fail, exit with an error, or print some
  // stretch of the file from the offset on; the store may then refuse the batch.
  datatype Answer = ExecFailed | ExitCode(code: int) | Output(stdout: bytes, storeFails: bool)

  // How far one node's log was read, and the rows stored for it.
  datatype Progress = Progress(offset: nat, stored: seq<Command>)

  const NOTHING := Progress(0, [])

  function AfterPull(p: Progress, a: Answer, parse: Parser): Progress {
    if !a.Output? then p
    else
      var complete := Complete(a.stdout);
      var entries := parse(complete).entries;
      if complete == [] then p
      else if entries != [] && a.storeFails then p
      else Progress(p.offset + |complete|, p.stored + entries)
  }

  type Offsets = map<string, nat>

  // The loop: offsets are absent until it has begun, and a final round is the last.
  // `left` holds the nodes the round under way has still to pull.
  datatype Loop = Loop(offsets: Option<Offsets>, final: bool, stored: map<string, seq<Command>>, left: seq<string>)

  const START := Loop(None, false, map[], [])

  function ProgressOf(l: Loop, node: string): Progress {
    Progress(if l.offsets.Some? && node in l.offsets.value then l.offsets.value[node] else 0,
             if node in l.stored then l.stored[node] else [])
  }

  function AfterBegin(l: Loop): Loop {
    l.(offsets := Some(map[]))
  }

  function AfterRound(l: Loop, final: bool, nodes: seq<string>): Loop {
    if l.final || l.offsets.None? then l else l.(final := final, left := nodes)
  }

  function WithProgress(l: Loop, node: string, p: Progress): Loop
    requires l.offsets.Some?
  {
    l.(offsets := Some(l.offsets.value[node := p.offset]), stored := l.stored[node := p.stored])
  }

  // The next pull of the round.
  function AfterNext(l: Loop, a: Answer, parse: Parser): Loop
    requires l.offsets.Some? && l.left != []
  {
    var node := l.left[0];
    var p := AfterPull(ProgressOf(l, node), a, parse);
    var next := if p == ProgressOf(l, node) then l else WithProgress(l, node, p);
    next.(left := l.left[1..])
  }

  predicate Ingests(a: Answer, parse: Parser) {
    a.Output? && Complete(a.stdout) != [] && !(parse(Complete(a.stdout)).entries != [] && a.storeFails)
  }

  lemma NextIs(l: Loop, a: Answer, parse: Parser)
    requires l.offsets.Some? && l.left != []
    ensures var node, p := l.left[0], ProgressOf(l, l.left[0]);
            AfterNext(l, a, parse)
            == if Ingests(a, parse)
               then Loop(Some(l.offsets.value[node := p.offset + |Complete(a.stdout)|]), l.final,
                         l.stored[node := p.stored + parse(Complete(a.stdout)).entries], l.left[1..])
               else l.(left := l.left[1..])
  {
    var p := ProgressOf(l, l.left[0]);
    if Ingests(a, parse) {
      assert AfterPull(p, a, parse).offset != p.offset;
    } else {
      assert AfterPull(p, a, parse) == p;
    }
  }

  // ----- runs against growing files

  datatype World = World(files: map<string, bytes>, l: Loop)

  function FileOf(w: World, node: string): bytes {
    if node in w.files then w.files[node] else []
  }

  datatype Event =
    | Grow(node: string, more: bytes)
    | Begin
    | Round(final: bool)
    | Pull(answer: Answer)

  // The rounds take a lock, so one starts only when the one before is done; tail prints
  // from the offset, as far as the file went or the command got.
  predicate Can(w: World, e: Event) {
    match e
    case Grow(_, _) => true
    case Begin => w.l.offsets.None?
    case Round(_) => w.l.left == []
    case Pull(a) =>
      && w.l.offsets.Some? && w.l.left != []
      && var node := w.l.left[0];
         var offset := ProgressOf(w.l, node).offset;
         a.Output? ==> offset <= |FileOf(w, node)| && a.stdout <= FileOf(w, node)[offset..]
  }

  function AfterEvent(w: World, e: Event, nodes: seq<string>, parse: Parser): World
    requires Can(w, e)
  {
    match e
    case Grow(node, more) => w.(files := w.files[node := FileOf(w, node) + more])
    case Begin => w.(l := AfterBegin(w.l))
    case Round(final) => w.(l := AfterRound(w.l, final, nodes))
    case Pull(a) => w.(l := AfterNext(w.l, a, parse))
  }

  // A run from an attempt without rows, whatever the files already hold.
  ghost predicate IsRun(run: seq<World>, nodes: seq<string>, parse: Parser) {
    && run != [] && run[0].l == START
    && forall i | 0 <= i < |run| - 1 :: IsStep(run[i], run[i + 1], nodes, parse)
  }

  ghost predicate IsStep(w: World, w': World, nodes: seq<string>, parse: Parser) {
    exists e :: Can(w, e) && w' == AfterEvent(w, e, nodes, parse)
  }

  // The rows are those of the part of the file before the offset, cut at a line's end.
  ghost predicate ProgressOk(file: bytes, p: Progress, parse: Parser) {
    && p.offset <= |file|
    && WholeLines(file[..p.offset])
    && p.stored == parse(file[..p.offset]).entries
  }

  ghost predicate WorldOk(w: World, parse: Parser) {
    && (forall node :: ProgressOk(FileOf(w, node), ProgressOf(w.l, node), parse))
    && (w.l.left != [] ==> w.l.offsets.Some?)
    && (w.l.offsets.None? ==> w.l.stored == map[])
  }

  lemma PullKeeps(file: bytes, p: Progress, a: Answer, parse: Parser)
    requires Joins(parse) && ProgressOk(file, p, parse) && (a.Output? ==> a.stdout <= file[p.offset..])
    ensures ProgressOk(file, AfterPull(p, a, parse), parse)
  {
    if a.Output? {
      var complete := Complete(a.stdout);
      var n := p.offset + |complete|;
      assert file[p.offset..n] == complete;
      assert file[..n] == file[..p.offset] + complete;
      assert JoinsAt(parse, file[..p.offset], complete);
    }
  }

  lemma GrowthKeeps(file: bytes, more: bytes, p: Progress, parse: Parser)
    requires ProgressOk(file, p, parse)
    ensures ProgressOk(file + more, p, parse)
  {
    assert (file + more)[..p.offset] == file[..p.offset];
  }

  lemma NextKeeps(w: World, a: Answer, parse: Parser, node: string)
    requires Joins(parse) && WorldOk(w, parse) && Can(w, Pull(a))
    ensures ProgressOk(FileOf(w, node), ProgressOf(AfterNext(w.l, a, parse), node), parse)
  {
    var own, p := w.l.left[0], ProgressOf(w.l, node);
    assert ProgressOk(FileOf(w, node), p, parse);
    if node == own {
      PullKeeps(FileOf(w, node), p, a, parse);
      assert ProgressOf(AfterNext(w.l, a, parse), node) == AfterPull(p, a, parse);
    } else {
      assert ProgressOf(AfterNext(w.l, a, parse), node) == p;
    }
  }

  lemma OthersKeep(w: World, e: Event, nodes: seq<string>, parse: Parser, node: string)
    requires WorldOk(w, parse) && Can(w, e) && !e.Pull?
    ensures var w' := AfterEvent(w, e, nodes, parse); ProgressOk(FileOf(w', node), ProgressOf(w'.l, node), parse)
  {
    assert ProgressOk(FileOf(w, node), ProgressOf(w.l, node), parse);
    if e.Grow? { GrowthKeeps(FileOf(w, node), e.more, ProgressOf(w.l, node), parse); }
  }

  lemma EventKeeps(w: World, e: Event, nodes: seq<string>, parse: Parser)
    requires Joins(parse) && WorldOk(w, parse) && Can(w, e)
    ensures WorldOk(AfterEvent(w, e, nodes, parse), parse)
  {
    var w' := AfterEvent(w, e, nodes, parse);
    forall node
      ensures ProgressOk(FileOf(w', node), ProgressOf(w'.l, node), parse)
    {
      if e.Pull? {
        NextKeeps(w, e.answer, parse, node);
      } else {
        OthersKeep(w, e, nodes, parse, node);
      }
    }
  }

  lemma EmptyIsOk(file: bytes, parse: Parser)
    requires Joins(parse)
    ensures ProgressOk(file, NOTHING, parse)
  {
    assert file[..NOTHING.offset] == [];
    assert JoinsAt(parse, file[..NOTHING.offset], file);
  }

  // In every run, whatever grows, fails or is cut short: the rows stored are exactly the
  // commands of the first `offset` bytes, and the offset sits at the end of a line.
  lemma {:induction false} RunIsOk(run: seq<World>, nodes: seq<string>, parse: Parser, i: nat)
    requires Joins(parse) && IsRun(run, nodes, parse) && i < |run|
    ensures WorldOk(run[i], parse)
  {
    if i == 0 {
      forall node
        ensures ProgressOk(FileOf(run[0], node), ProgressOf(run[0].l, node), parse)
      {
        EmptyIsOk(FileOf(run[0], node), parse);
      }
    } else {
      RunIsOk(run, nodes, parse, i - 1);
      assert IsStep(run[i - 1], run[i], nodes, parse);
      var e :| Can(run[i - 1], e) && run[i] == AfterEvent(run[i - 1], e, nodes, parse);
      EventKeeps(run[i - 1], e, nodes, parse);
    }
  }

  // For every decoder: the rows are, in order and one for each, what the readable lines
  // of the first `offset` bytes decode to.
  lemma RecorderStoresCommands(run: seq<World>, nodes: seq<string>, decode: Decoder, i: nat, node: string)
    requires IsRun(run, nodes, Parsing(Reading(decode))) && i < |run|
    ensures var file, p := FileOf(run[i], node), ProgressOf(run[i].l, node);
            && p.offset <= |file| && WholeLines(file[..p.offset])
            && Collects(Lines(file[..p.offset]), decode, p.stored, |UnreadableOf(Lines(file[..p.offset]), decode)|)
  {
    var parse, file, p := Parsing(Reading(decode)), FileOf(run[i], node), ProgressOf(run[i].l, node);
    ParsingJoins(Reading(decode));
    RunIsOk(run, nodes, parse, i);
    assert ProgressOk(file, p, parse);
    ParsingIs(Reading(decode), file[..p.offset]);
    ParsedCollects(Lines(file[..p.offset]), decode, Reading(decode));
  }

  // So none is lost and none stored twice: what is stored and what is still unread are
  // together the commands of the file.
  lemma NothingIsLost(run: seq<World>, nodes: seq<string>, parse: Parser, i: nat, node: string)
    requires Joins(parse) && IsRun(run, nodes, parse) && i < |run|
    ensures var file, p := FileOf(run[i], node), ProgressOf(run[i].l, node);
            p.offset <= |file| && parse(file).entries == p.stored + parse(file[p.offset..]).entries
  {
    RunIsOk(run, nodes, parse, i);
    var file, p := FileOf(run[i], node), ProgressOf(run[i].l, node);
    assert ProgressOk(file, p, parse);
    assert file == file[..p.offset] + file[p.offset..];
    assert JoinsAt(parse, file[..p.offset], file[p.offset..]);
  }

  // A pull that reads to the end catches up with every line finished so far, unless the
  // store refuses the rows it found.
  lemma FullPullCatchesUp(file: bytes, p: Progress, storeFails: bool, parse: Parser)
    requires Joins(parse) && ProgressOk(file, p, parse)
    ensures var p' := AfterPull(p, Output(file[p.offset..], storeFails), parse);
            if storeFails && parse(Complete(file[p.offset..])).entries != [] then p' == p
            else p'.offset == |Complete(file)| && p'.stored == parse(Complete(file)).entries
  {
    var rest := file[p.offset..];
    var complete := Complete(rest);
    CompleteOfRest(file, p.offset);
    assert JoinsAt(parse, file[..p.offset], complete);
    assert JoinsAt(parse, complete, []);
    assert file[..p.offset] + [] == file[..p.offset];
  }

  lemma CutAt(file: bytes, m: nat, part: bytes)
    requires m <= |file| && part <= file[m..]
    ensures file[m..m + |part|] == part && file[m + |part|..] == file[m..][|part|..] && file[..m + |part|] == file[..m] + part
  {
  }

  lemma CompleteOfRest(file: bytes, m: nat)
    requires m <= |file| && WholeLines(file[..m])
    ensures Complete(file) == file[..m] + Complete(file[m..])
  {
    var n := m + |Complete(file[m..])|;
    CutAt(file, m, Complete(file[m..]));
    CompleteIs(file, n, m);
  }

  lemma CompleteIs(file: bytes, n: nat, m: nat)
    requires m <= n <= |file| && NEWLINE !in file[n..] && WholeLines(file[..m]) && WholeLines(file[m..n])
    ensures Complete(file) == file[..n]
  {
    if n > m {
      assert file[..n][n - 1] == file[m..n][n - m - 1];
    }
    CutIsUnique(file, n, |Complete(file)|);
  }

  lemma CutIsUnique(file: bytes, n: nat, m: nat)
    requires n <= |file| && m <= |file| && WholeLines(file[..n]) && WholeLines(file[..m])
    requires NEWLINE !in file[n..] && NEWLINE !in file[m..]
    ensures n == m
  {
    NoNewlineFrom(file, n);
    NoNewlineFrom(file, m);
  }

  lemma NoNewlineFrom(file: bytes, n: nat)
    requires n <= |file| && NEWLINE !in file[n..]
    ensures forall k | n <= k < |file| :: file[k] != NEWLINE
  {
    forall k | n <= k < |file|
      ensures file[k] != NEWLINE
    {
      assert file[n..][k - n] == file[k];
    }
  }

  // After a final round nothing is stored any more.
  lemma {:induction false} FinalIsLast(run: seq<World>, nodes: seq<string>, parse: Parser, i: nat, j: nat)
    requires IsRun(run, nodes, parse) && i <= j < |run|
    requires run[i].l.final && run[i].l.left == []
    ensures run[j].l == run[i].l
  {
    if i < j {
      FinalIsLast(run, nodes, parse, i, j - 1);
      RunBegan(run, nodes, parse, i);
      assert IsStep(run[j - 1], run[j], nodes, parse);
    }
  }

  lemma {:induction false} RunBegan(run: seq<World>, nodes: seq<string>, parse: Parser, i: nat)
    requires IsRun(run, nodes, parse) && i < |run|
    ensures run[i].l.final ==> run[i].l.offsets.Some?
  {
    if i > 0 {
      RunBegan(run, nodes, parse, i - 1);
      assert IsStep(run[i - 1], run[i], nodes, parse);
    }
  }
}

module CommandLog {
  import opened Lists
  import opened Wrappers
  import opened StreamFrames
  import opened CommandLines
  import opened CommandLogModel

  class RecorderLoop {
    const nodes: seq<string>
    const decode: Decoder
    var offsets: Option<Offsets>
    var final: bool
    var stored: map<string, seq<Command>>
    ghost var left: seq<string>

    ghost function View(): Loop
      reads this
    {
      Loop(offsets, final, stored, left)
    }

    ghost function Parser(): Parser {
      Parsing(Reading(decode))
    }

    constructor (nodes: seq<string>, decode: Decoder)
      ensures this.nodes == nodes && this.decode == decode && View() == START
    {
      this.nodes, this.decode := nodes, decode;
      offsets, final, stored, left := None, false, map[], [];
    }

    method Begin()
      requires offsets.None?
      modifies this`offsets
      ensures View() == AfterBegin(old(View()))
    {
      offsets := Some(map[]);
    }

    // One node's pull: `answer` is what the command and the store did.
    method Pull(node: string, answer: Answer)
      requires offsets.Some? && left != [] && left[0] == node
      modifies this`offsets, this`stored, this`left
      ensures View() == AfterNext(old(View()), answer, Parser())
    {
      NextIs(View(), answer, Parser());
      left := left[1..];
      if answer.Output? {
        var complete := Complete(answer.stdout);
        if |complete| > 0 {
          Ingest(node, complete, answer.storeFails);
        }
      }
    }

    // The entries alone; what was skipped only goes to the log.
    method Entries(complete: bytes) returns (entries: seq<Command>)
      ensures entries == Parser()(complete).entries
    {
      var skipped;
      entries, skipped := Parse(complete, decode);
      ParsingIs(Reading(decode), complete);
    }

    method Ingest(node: string, complete: bytes, storeFails: bool)
      requires offsets.Some?
      modifies this`offsets, this`stored
      ensures var l, entries := old(View()), Parser()(complete).entries;
              var p := ProgressOf(l, node);
              View() == if storeFails && entries != [] then l
                        else WithProgress(l, node, Progress(p.offset + |complete|, p.stored + entries))
    {
      var offset := if node in offsets.value then offsets.value[node] else 0;
      var entries := Entries(complete);
      if |entries| > 0 && storeFails { return; }
      var rows := if node in stored then stored[node] else [];
      stored := stored[node := rows + entries];
      offsets := Some(offsets.value[node := offset + |complete|]);
    }

    // A round: every node in turn, unless a final round has begun before.
    method PullAll(last: bool, answers: seq<Answer>)
      requires |answers| == |nodes| && left == []
      modifies this
      ensures View() == AfterPulls(AfterRound(old(View()), last, nodes), answers, Parser())
      ensures old(final) || old(offsets).None? ==> View() == old(View())
      ensures !old(final) && old(offsets).Some? ==> final == last && left == [] && IsRound(old(View()), View(), nodes, answers, Parser())
    {
      if !final && offsets.Some? { RoundIs(View(), last, nodes, answers, Parser()); }
      if final || offsets.None? { return; }
      final, left := last, nodes;
      ghost var begun := View();
      for i := 0 to |nodes|
        invariant offsets.Some? && left == nodes[i..]
        invariant AfterPulls(begun, answers, Parser()) == AfterPulls(View(), answers[i..], Parser())
      {
        assert answers[i..][1..] == answers[i + 1..];
        Pull(nodes[i], answers[i]);
      }
    }
  }

  // A round's pulls, one after the other.
  function AfterPulls(l: Loop, answers: seq<Answer>, parse: Parser): Loop
    decreases |l.left|
  {
    if l.left == [] || l.offsets.None? || answers == [] then l
    else AfterPulls(AfterNext(l, answers[0], parse), answers[1..], parse)
  }

  // Each node got as far as its own pull brought it, and no other node moved.
  ghost predicate IsRound(l: Loop, l': Loop, nodes: seq<string>, answers: seq<Answer>, parse: Parser)
    requires |answers| == |nodes|
  {
    && (forall node | node !in nodes :: ProgressOf(l', node) == ProgressOf(l, node))
    && (Distinct(nodes) ==>
          forall i | 0 <= i < |nodes| :: ProgressOf(l', nodes[i]) == AfterPull(ProgressOf(l, nodes[i]), answers[i], parse))
  }

  lemma NextMovesOne(l: Loop, answer: Answer, parse: Parser)
    requires l.offsets.Some? && l.left != []
    ensures var l' := AfterNext(l, answer, parse);
            && l'.offsets.Some? && l'.left == l.left[1..] && l'.final == l.final
            && ProgressOf(l', l.left[0]) == AfterPull(ProgressOf(l, l.left[0]), answer, parse)
            && forall node | node != l.left[0] :: ProgressOf(l', node) == ProgressOf(l, node)
  {
  }

  lemma {:induction false} PullsMoveEach(l: Loop, answers: seq<Answer>, parse: Parser)
    requires l.offsets.Some? && |answers| == |l.left|
    ensures var l' := AfterPulls(l, answers, parse); l'.left == [] && l'.final == l.final && IsRound(l, l', l.left, answers, parse)
    decreases |l.left|
  {
    if l.left != [] {
      var nodes, next := l.left, AfterNext(l, answers[0], parse);
      var l' := AfterPulls(l, answers, parse);
      NextMovesOne(l, answers[0], parse);
      PullsMoveEach(next, answers[1..], parse);
      if Distinct(nodes) {
        assert Distinct(nodes[1..]) && nodes[0] !in nodes[1..];
        forall i | 0 <= i < |nodes|
          ensures ProgressOf(l', nodes[i]) == AfterPull(ProgressOf(l, nodes[i]), answers[i], parse)
        {
          if i > 0 { assert nodes[i] == nodes[1..][i - 1] && answers[i] == answers[1..][i - 1]; }
        }
      }
    }
  }

  lemma RoundIs(l: Loop, last: bool, nodes: seq<string>, answers: seq<Answer>, parse: Parser)
    requires !l.final && l.offsets.Some? && |answers| == |nodes|
    ensures var l' := AfterPulls(AfterRound(l, last, nodes), answers, parse);
            l'.left == [] && l'.final == last && IsRound(l, l', nodes, answers, parse)
  {
    PullsMoveEach(AfterRound(l, last, nodes), answers, parse);
  }
}
