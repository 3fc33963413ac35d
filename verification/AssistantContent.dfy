/** Assistant text read back into content blocks (crates/rust-agent/src/model_service.rs). JSON is a
    parameter: a printer and a parser of values. The part of the text still to be read, a string
    slice in the program, is kept as the position where it starts. */
module AssistantContent {
  import opened Options
  import opened Strings
  import opened ToolTagFiltering

  /** JSON values: all that is used of them is that they can be compared. */
  type Json(==, !new)

  datatype JsonCodec = JsonCodec(write: Json -> string, parse: string -> Option<Json>, emptyObject: Json)

  datatype ContentBlock =
    | Text(text: string)
    | Image(mediaType: string, data: string)
    | ToolUse(id: string, name: string, input: Json)
    | ToolResult(toolUseId: string, content: string, isError: bool)

  // ---------- Reading one tool block ----------

  function ParseAttr(header: string, key: string): Option<string> {
    var marker := key + "=\"";
    match Find(header, marker)
    case None => None
    case Some(at) =>
      var start := at + |marker|;
      match FindFrom(header, "\"", start)
      case None => None
      case Some(end) => if end == start then None else Some(header[start..end])
  }

  /** The block that a header and a body read as. */
  function ReadTool(json: JsonCodec, header: string, rawBody: string): Option<ContentBlock> {
    match (ParseAttr(header, "id"), ParseAttr(header, "name"))
    case (Some(id), Some(name)) =>
      var body := Trim(rawBody);
      var parsed := if body == "" then Some(json.emptyObject) else json.parse(body);
      (match parsed
       case None => None
       case Some(value) => Some(ToolUse(id, name, value)))
    case _ => None
  }

  /** Reads a tool block from its header and its body. */
  type ToolReader = (string, string) -> Option<ContentBlock>

  ghost predicate ReadsTools(read: ToolReader) {
    forall header, rawBody :: read(header, rawBody).Some? ==> read(header, rawBody).value.ToolUse?
  }

  function ReaderOf(json: JsonCodec): (read: ToolReader)
    ensures ReadsTools(read)
  {
    (header, rawBody) => ReadTool(json, header, rawBody)
  }

  /** What reading needs of the markers besides: no `>` in the open marker, and no whitespace first. */
  type TagMarkers = m: Markers | Without(m.open, '>') && !IsWhitespace(m.open[0]) witness MarkerPair("<", ">")

  datatype Framed = NoFrame | Framed(headerEnd: nat, closeAt: nat)

  /** Where the header of the block opened at `at` ends, and where its close marker is. */
  function Frame(m: TagMarkers, text: string, at: nat): (r: Framed)
    requires OccursAt(text, at, m.open)
    ensures r.Framed? ==> at + |m.open| <= r.headerEnd < r.closeAt && r.closeAt + |m.close| <= |text|
  {
    match FindFrom(text, ">", at)
    case None => NoFrame
    case Some(headerEnd) =>
      HeaderEnds(m, text, at, headerEnd);
      match FindFrom(text, m.close, headerEnd + 1)
      case None => NoFrame
      case Some(closeAt) => Framed(headerEnd, closeAt)
  }

  lemma HeaderEnds(m: TagMarkers, text: string, at: nat, headerEnd: nat)
    requires OccursAt(text, at, m.open) && at <= headerEnd && OccursAt(text, headerEnd, ">")
    ensures at + |m.open| <= headerEnd < |text| && text[headerEnd] == '>'
  {
    assert MatchAt(text, headerEnd, ">", 0);
    if headerEnd < at + |m.open| {
      MatchGives(text, at, m.open, headerEnd - at);
      NotIn(m.open, '>', headerEnd - at);
    }
  }

  /** A tool block and where it ends. */
  datatype ToolRead = NoTool | ToolRead(block: ContentBlock, end: nat)

  /** Reads the tool block opened at `at`. */
  function ParseToolUseBlock(m: TagMarkers, read: ToolReader, text: string, at: nat): (r: ToolRead)
    requires OccursAt(text, at, m.open)
    ensures r.ToolRead? ==> at < r.end <= |text|
  {
    match Frame(m, text, at)
    case NoFrame => NoTool
    case Framed(headerEnd, closeAt) =>
      match read(text[at + |m.open|..headerEnd], text[headerEnd + 1..closeAt])
      case None => NoTool
      case Some(block) => ToolRead(block, closeAt + |m.close|)
  }

  // ---------- Reading a whole text ----------

  /** A block with the stretch of the text it was read from. */
  datatype Piece = Piece(block: ContentBlock, start: nat, end: nat)

  datatype Pieces = Done | Then(piece: Piece, rest: Pieces)

  /** A stretch of plain text, trimmed, in front of what comes after; blank text is left out. */
  function WithWords(text: string, start: nat, end: nat, after: Pieces): Pieces
    requires start <= end <= |text|
  {
    if Trim(text[start..end]) == "" then after else Then(Piece(Text(Trim(text[start..end])), start, end), after)
  }

  /** Text up to and including a marker that starts no block is kept as it is. */
  function WithMarked(text: string, start: nat, end: nat, after: Pieces): Pieces
    requires start <= end <= |text|
  {
    if Trim(text[start..end]) == "" then after else Then(Piece(Text(text[start..end]), start, end), after)
  }

  function ParsePieces(m: TagMarkers, read: ToolReader, text: string, from: nat): Pieces
    requires from <= |text|
    decreases |text| - from
  {
    match FindFrom(text, m.open, from)
    case None => WithWords(text, from, |text|, Done)
    case Some(at) =>
      match ParseToolUseBlock(m, read, text, at)
      case ToolRead(block, end) => WithWords(text, from, at, Then(Piece(block, at, end), ParsePieces(m, read, text, end)))
      case NoTool =>
        var split := at + |m.open|;
        WithMarked(text, from, split, ParsePieces(m, read, text, split))
  }

  function Blocks(pieces: Pieces): seq<ContentBlock> {
    match pieces
    case Done => []
    case Then(p, rest) => [p.block] + Blocks(rest)
  }

  function Parsed(json: JsonCodec, text: string): seq<ContentBlock> {
    var blocks := Blocks(ParsePieces(TOOL_USE, ReaderOf(json), text, 0));
    if blocks == [] && text != "" then [Text(text)] else blocks
  }

  method ParseAssistantContent(json: JsonCodec, text: string) returns (blocks: seq<ContentBlock>)
    ensures blocks == Parsed(json, text)
  {
    blocks := ReadBlocks(TOOL_USE, ReaderOf(json), text);
    if blocks == [] && text != "" {
      blocks := blocks + [Text(text)];
    }
  }

  method ReadBlocks(m: TagMarkers, read: ToolReader, text: string) returns (blocks: seq<ContentBlock>)
    ensures blocks == Blocks(ParsePieces(m, read, text, 0))
  {
    ghost var goal := Blocks(ParsePieces(m, read, text, 0));
    blocks := [];
    var rest := 0;
    var found := FindFrom(text, m.open, rest);
    while found.Some?
      invariant rest <= |text| && found == FindFrom(text, m.open, rest)
      invariant Leads(m, read, text, blocks, rest, goal)
      decreases |text| - rest
    {
      blocks, rest := ReadAtMarker(m, read, text, blocks, rest, found.value, goal);
      found := FindFrom(text, m.open, rest);
    }
    LeadsToEnd(m, read, text, blocks, rest, goal);
    blocks := if Trim(text[rest..]) == "" then blocks else blocks + [Text(Trim(text[rest..]))];
  }

  /** One round of the reading loop, at the next open marker. */
  method ReadAtMarker(m: TagMarkers, read: ToolReader, text: string, blocks: seq<ContentBlock>, rest: nat,
                      openAt: nat, ghost goal: seq<ContentBlock>)
      returns (blocks': seq<ContentBlock>, rest': nat)
    requires rest <= |text| && FindFrom(text, m.open, rest) == Some(openAt)
    requires Leads(m, read, text, blocks, rest, goal)
    ensures rest < rest' <= |text| && Leads(m, read, text, blocks', rest', goal)
  {
    var tool := ParseToolUseBlock(m, read, text, openAt);
    match tool {
      case ToolRead(toolUse, end) =>
        var before := Trim(text[rest..openAt]);
        blocks', rest' := if before == "" then blocks + [toolUse] else blocks + [Text(before)] + [toolUse], end;
        LeadsAfterTool(m, read, text, blocks, rest, openAt, toolUse, end, blocks', goal);
      case NoTool =>
        var split := openAt + |m.open|;
        blocks', rest' := if Trim(text[rest..split]) == "" then blocks else blocks + [Text(text[rest..split])], split;
        LeadsAfterMarker(m, read, text, blocks, rest, split, blocks', goal);
    }
  }

  /** With `done` read and the text from `from` on still to read, the blocks will be `goal`. */
  ghost predicate Leads(m: TagMarkers, read: ToolReader, text: string, done: seq<ContentBlock>, from: nat, goal: seq<ContentBlock>)
    requires from <= |text|
  {
    goal == done + Blocks(ParsePieces(m, read, text, from))
  }

  lemma {:induction false} LeadsAfterTool(m: TagMarkers, read: ToolReader, text: string, done: seq<ContentBlock>, from: nat, at: nat,
                       block: ContentBlock, end: nat, done': seq<ContentBlock>, goal: seq<ContentBlock>)
    requires from <= |text| && Leads(m, read, text, done, from, goal)
    requires FindFrom(text, m.open, from) == Some(at) && ParseToolUseBlock(m, read, text, at) == ToolRead(block, end)
    requires var before := Trim(text[from..at]);
             done' == if before == "" then done + [block] else done + [Text(before)] + [block]
    ensures Leads(m, read, text, done', end, goal)
  {
    var before := Trim(text[from..at]);
    var after := ParsePieces(m, read, text, end);
    if before != "" { BlocksAfter(done, Piece(Text(before), from, at), Then(Piece(block, at, end), after)); }
    BlocksAfter(if before == "" then done else done + [Text(before)], Piece(block, at, end), after);
  }

  lemma LeadsAfterMarker(m: TagMarkers, read: ToolReader, text: string, done: seq<ContentBlock>, from: nat, split: nat,
                         done': seq<ContentBlock>, goal: seq<ContentBlock>)
    requires from <= |text| && Leads(m, read, text, done, from, goal)
    requires FindFrom(text, m.open, from).Some? && split == FindFrom(text, m.open, from).value + |m.open|
    requires ParseToolUseBlock(m, read, text, FindFrom(text, m.open, from).value).NoTool?
    requires done' == if Trim(text[from..split]) == "" then done else done + [Text(text[from..split])]
    ensures Leads(m, read, text, done', split, goal)
  {
    BlocksAfter(done, Piece(Text(text[from..split]), from, split), ParsePieces(m, read, text, split));
  }

  lemma {:induction false} LeadsToEnd(m: TagMarkers, read: ToolReader, text: string, done: seq<ContentBlock>, from: nat, goal: seq<ContentBlock>)
    requires from <= |text| && Leads(m, read, text, done, from, goal)
    requires FindFrom(text, m.open, from).None?
    ensures goal == if Trim(text[from..]) == "" then done else done + [Text(Trim(text[from..]))]
  {
    assert text[from..|text|] == text[from..];
    BlocksAfter(done, Piece(Text(Trim(text[from..])), from, |text|), Done);
    assert done + [] == done;
  }

  lemma BlocksAfter(done: seq<ContentBlock>, p: Piece, after: Pieces)
    ensures done + Blocks(Then(p, after)) == done + [p.block] + Blocks(after)
  {
  }

  // ---------- Reading loses nothing ----------

  /** A text block shows its whole stretch, or that stretch trimmed. */
  predicate Shows(text: string, p: Piece) {
    p.start < p.end <= |text| &&
    (p.block.Text? ==> p.block.text == text[p.start..p.end] || p.block.text == Trim(text[p.start..p.end]))
  }

  /** The pieces are stretches of the text from `from` on, in order and apart, and all that lies between
      and around them is whitespace. */
  predicate Covers(text: string, from: nat, pieces: Pieces)
    requires from <= |text|
    decreases pieces
  {
    match pieces
    case Done => AllWhitespace(text[from..])
    case Then(p, rest) =>
      from <= p.start && Shows(text, p) && AllWhitespace(text[from..p.start]) && Covers(text, p.end, rest)
  }

  /** Fail-open: whatever the text, reading it drops nothing but whitespace. */
  lemma {:induction false} NothingIsLost(m: TagMarkers, read: ToolReader, text: string, from: nat)
    requires ReadsTools(read) && from <= |text|
    ensures Covers(text, from, ParsePieces(m, read, text, from))
    decreases |text| - from
  {
    var found := FindFrom(text, m.open, from);
    if found.None? {
      CoverAtEnd(m, read, text, from);
    } else {
      var at := found.value;
      var tool := ParseToolUseBlock(m, read, text, at);
      var next := if tool.ToolRead? then tool.end else at + |m.open|;
      NothingIsLost(m, read, text, next);
      match tool
      case ToolRead(block, end) => CoverAtTool(m, read, text, from, at, block, end);
      case NoTool => CoverAtMarker(m, read, text, from, at);
    }
  }

  lemma CoverAtEnd(m: TagMarkers, read: ToolReader, text: string, from: nat)
    requires from <= |text| && FindFrom(text, m.open, from).None?
    ensures Covers(text, from, ParsePieces(m, read, text, from))
  {
    assert text[|text|..] == "";
    CoverWords(text, from, |text|, Done);
  }

  lemma CoverAtTool(m: TagMarkers, read: ToolReader, text: string, from: nat, at: nat, block: ContentBlock, end: nat)
    requires ReadsTools(read) && from <= |text| && FindFrom(text, m.open, from) == Some(at)
    requires ParseToolUseBlock(m, read, text, at) == ToolRead(block, end)
    requires Covers(text, end, ParsePieces(m, read, text, end))
    ensures Covers(text, from, ParsePieces(m, read, text, from))
  {
    CoverTool(text, from, Piece(block, at, end), ParsePieces(m, read, text, end));
  }

  lemma CoverAtMarker(m: TagMarkers, read: ToolReader, text: string, from: nat, at: nat)
    requires from <= |text| && FindFrom(text, m.open, from) == Some(at)
    requires ParseToolUseBlock(m, read, text, at).NoTool?
    requires Covers(text, at + |m.open|, ParsePieces(m, read, text, at + |m.open|))
    ensures Covers(text, from, ParsePieces(m, read, text, from))
  {
    var split := at + |m.open|;
    var rest := ParsePieces(m, read, text, split);
    assert Covers(text, from, WithMarked(text, from, split, rest)) by {
      MarkIsInk(text, from, at, m.open);
      CoverMarked(text, from, split, rest);
    }
  }

  lemma CoverTool(text: string, from: nat, p: Piece, after: Pieces)
    requires from <= p.start && Shows(text, p) && Covers(text, p.end, after)
    ensures Covers(text, from, WithWords(text, from, p.start, Then(p, after)))
  {
    CoverOne(text, p.start, p, after);
    CoverWords(text, from, p.start, Then(p, after));
  }

  lemma CoverMarked(text: string, from: nat, split: nat, after: Pieces)
    requires from < split <= |text| && Trim(text[from..split]) != "" && Covers(text, split, after)
    ensures Covers(text, from, WithMarked(text, from, split, after))
  {
    CoverOne(text, from, Piece(Text(text[from..split]), from, split), after);
  }

  /** And a block that is not text is what the text reads as at its stretch. */
  predicate ReadAsTools(m: TagMarkers, read: ToolReader, text: string, pieces: Pieces) {
    match pieces
    case Done => true
    case Then(p, rest) =>
      (p.block.Text? || (OccursAt(text, p.start, m.open)
                         && ParseToolUseBlock(m, read, text, p.start) == ToolRead(p.block, p.end)))
      && ReadAsTools(m, read, text, rest)
  }

  lemma {:induction false} ToolsAreRead(m: TagMarkers, read: ToolReader, text: string, from: nat)
    requires from <= |text|
    ensures ReadAsTools(m, read, text, ParsePieces(m, read, text, from))
    decreases |text| - from
  {
    var found := FindFrom(text, m.open, from);
    if found.None? {
      EndReadsToo(m, read, text, from);
    } else {
      var at := found.value;
      var tool := ParseToolUseBlock(m, read, text, at);
      var next := if tool.ToolRead? then tool.end else at + |m.open|;
      ToolsAreRead(m, read, text, next);
      PiecesUnfold(m, read, text, from, at, tool, next);
      NextReadsToo(m, read, text, from, at, tool, next, ParsePieces(m, read, text, next));
    }
  }

  /** The pieces from an open marker's side: what it reads as, and the pieces after. */
  function PiecesAt(text: string, from: nat, at: nat, tool: ToolRead, next: nat, rest: Pieces): Pieces
    requires from <= at <= next <= |text|
  {
    match tool
    case ToolRead(block, end) => WithWords(text, from, at, Then(Piece(block, at, end), rest))
    case NoTool => WithMarked(text, from, next, rest)
  }

  lemma PiecesUnfold(m: TagMarkers, read: ToolReader, text: string, from: nat, at: nat, tool: ToolRead, next: nat)
    requires from <= |text| && FindFrom(text, m.open, from) == Some(at) && ParseToolUseBlock(m, read, text, at) == tool
    requires next == (if tool.ToolRead? then tool.end else at + |m.open|)
    ensures ParsePieces(m, read, text, from) == PiecesAt(text, from, at, tool, next, ParsePieces(m, read, text, next))
  {
  }

  lemma NextReadsToo(m: TagMarkers, read: ToolReader, text: string, from: nat, at: nat, tool: ToolRead, next: nat, rest: Pieces)
    requires from <= at <= next <= |text| && OccursAt(text, at, m.open) && ParseToolUseBlock(m, read, text, at) == tool
    requires ReadAsTools(m, read, text, rest) && (tool.ToolRead? ==> next == tool.end)
    ensures ReadAsTools(m, read, text, PiecesAt(text, from, at, tool, next, rest))
  {
    match tool
    case ToolRead(block, end) => ToolReadsToo(m, read, text, from, Piece(block, at, end), rest);
    case NoTool => TextsReadToo(m, read, text, from, next, rest);
  }

  lemma ToolReadsToo(m: TagMarkers, read: ToolReader, text: string, from: nat, p: Piece, rest: Pieces)
    requires from <= p.start <= |text| && OccursAt(text, p.start, m.open)
    requires ParseToolUseBlock(m, read, text, p.start) == ToolRead(p.block, p.end) && ReadAsTools(m, read, text, rest)
    ensures ReadAsTools(m, read, text, WithWords(text, from, p.start, Then(p, rest)))
  {
    ReadOne(m, read, text, p, rest);
    TextsReadToo(m, read, text, from, p.start, Then(p, rest));
  }

  lemma ReadOne(m: TagMarkers, read: ToolReader, text: string, p: Piece, rest: Pieces)
    requires OccursAt(text, p.start, m.open) && ParseToolUseBlock(m, read, text, p.start) == ToolRead(p.block, p.end)
    requires ReadAsTools(m, read, text, rest)
    ensures ReadAsTools(m, read, text, Then(p, rest))
  {
  }

  lemma EndReadsToo(m: TagMarkers, read: ToolReader, text: string, from: nat)
    requires from <= |text| && FindFrom(text, m.open, from).None?
    ensures ReadAsTools(m, read, text, ParsePieces(m, read, text, from))
  {
    assert ReadAsTools(m, read, text, Done);
    TextsReadToo(m, read, text, from, |text|, Done);
  }

  lemma TextsReadToo(m: TagMarkers, read: ToolReader, text: string, from: nat, end: nat, pieces: Pieces)
    requires from <= end <= |text| && ReadAsTools(m, read, text, pieces)
    ensures ReadAsTools(m, read, text, WithWords(text, from, end, pieces))
    ensures ReadAsTools(m, read, text, WithMarked(text, from, end, pieces))
  {
  }

  lemma CoverOne(text: string, from: nat, p: Piece, after: Pieces)
    requires from == p.start && Shows(text, p) && Covers(text, p.end, after)
    ensures Covers(text, from, Then(p, after))
  {
    assert text[from..p.start] == "";
  }

  lemma CoverWords(text: string, from: nat, end: nat, after: Pieces)
    requires from <= end <= |text| && Covers(text, end, after)
    ensures Covers(text, from, WithWords(text, from, end, after))
  {
    TrimBlank(text[from..end]);
    if Trim(text[from..end]) != "" {
      CoverOne(text, from, Piece(Text(Trim(text[from..end])), from, end), after);
    } else {
      var next := if after.Done? then |text| else after.piece.start;
      assert text[from..next] == text[from..end] + text[end..next];
      AllWhitespaceSplit(text[from..end], text[end..next]);
      if after.Done? { assert text[from..|text|] == text[from..] && text[end..|text|] == text[end..]; }
    }
  }

  lemma MarkIsInk(text: string, from: nat, at: nat, open: string)
    requires open != "" && !IsWhitespace(open[0]) && from <= at && OccursAt(text, at, open)
    ensures Trim(text[from..at + |open|]) != ""
  {
    assert MatchAt(text, at, open, 0) && !WhitespaceAt(text[from..at + |open|], at - from);
    TrimBlank(text[from..at + |open|]);
  }

  /** Fail-open, for a whole text: its blocks are those of pieces that cover it, tool blocks are what the
      text reads as where they stand, and blank text that is not empty is kept as it is. */
  lemma {:induction false} ParsingIsFailOpen(json: JsonCodec, text: string)
    ensures var pieces := ParsePieces(TOOL_USE, ReaderOf(json), text, 0);
            && Covers(text, 0, pieces) && ReadAsTools(TOOL_USE, ReaderOf(json), text, pieces)
            && Parsed(json, text) == (if pieces.Done? && text != "" then [Text(text)] else Blocks(pieces))
            && (pieces.Done? ==> AllWhitespace(text))
  {
    NothingIsLost(TOOL_USE, ReaderOf(json), text, 0);
    ToolsAreRead(TOOL_USE, ReaderOf(json), text, 0);
    assert text[0..] == text;
  }
}
