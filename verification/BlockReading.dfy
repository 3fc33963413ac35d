/** What a block of assistant text reads as, said by position (crates/rust-agent/src/model_service.rs). */
module BlockReading {
  import opened Options
  import opened Strings
  import opened ToolTagFiltering
  import opened AssistantContent

  /** The first occurrence of `m` from a position on. */
  ghost predicate FirstAt(s: string, m: string, from: nat, i: nat) {
    from <= i && OccursAt(s, i, m) && forall j | from <= j < i :: !OccursAt(s, j, m)
  }

  lemma FirstIsFound(s: string, m: string, from: nat, i: nat)
    requires m != ""
    ensures FindFrom(s, m, from) == Some(i) <==> FirstAt(s, m, from, i)
  {
    if FirstAt(s, m, from, i) { FindFromIs(s, m, from, i); }
  }

  // ---------- One block ----------

  /** The value is what stands between the first `key="` and the next quote, and is not empty. */
  ghost predicate ValueAt(header: string, marker: string, value: string, at: nat, end: nat) {
    && FirstAt(header, marker, 0, at) && FirstAt(header, "\"", at + |marker|, end)
    && at + |marker| < end <= |header| && value == header[at + |marker|..end]
  }

  ghost predicate HasAttr(header: string, key: string, value: string) {
    exists at: nat, end: nat :: ValueAt(header, key + "=\"", value, at, end)
  }

  lemma AttrIs(header: string, key: string, value: string)
    ensures ParseAttr(header, key) == Some(value) <==> HasAttr(header, key, value)
  {
    var marker := key + "=\"";
    if ParseAttr(header, key) == Some(value) {
      var at := Find(header, marker).value;
      AttrAtIs(header, key, value, at, FindFrom(header, "\"", at + |marker|).value);
    }
    forall at: nat, end: nat | ValueAt(header, marker, value, at, end) ensures ParseAttr(header, key) == Some(value) {
      AttrAtIs(header, key, value, at, end);
    }
  }

  lemma AttrAtIs(header: string, key: string, value: string, at: nat, end: nat)
    ensures var marker := key + "=\"";
            ValueAt(header, marker, value, at, end) <==>
            ParseAttr(header, key) == Some(value) && FindFrom(header, marker, 0) == Some(at)
            && FindFrom(header, "\"", at + |marker|) == Some(end)
  {
    var marker := key + "=\"";
    FirstIsFound(header, marker, 0, at);
    FirstIsFound(header, "\"", at + |marker|, end);
    QuoteInside(header, at + |marker|);
  }

  lemma QuoteInside(header: string, from: nat)
    ensures FindFrom(header, "\"", from).Some? ==> from <= FindFrom(header, "\"", from).value < |header|
  {
  }

  /** What a tool block reads as: the values of its two attributes, and its trimmed body as JSON, or the empty
      object for a blank body. */
  ghost predicate ReadsAs(json: JsonCodec, header: string, body: string, id: string, name: string, input: Json) {
    && HasAttr(header, "id", id) && HasAttr(header, "name", name)
    && if AllWhitespace(body) then input == json.emptyObject else json.parse(Trim(body)) == Some(input)
  }

  lemma ToolIs(json: JsonCodec, header: string, body: string, id: string, name: string, input: Json)
    ensures ReadTool(json, header, body) == Some(ToolUse(id, name, input)) <==> ReadsAs(json, header, body, id, name, input)
  {
    AttrIs(header, "id", id);
    AttrIs(header, "name", name);
    TrimBlank(body);
  }

  /** The block opened at `at`: its header ends at the first `>`, and it at the first close marker after that. */
  ghost predicate BlockAt(m: TagMarkers, read: ToolReader, text: string, at: nat, block: ContentBlock, end: nat,
                          headerEnd: nat, closeAt: nat)
  {
    && FirstAt(text, ">", at, headerEnd) && FirstAt(text, m.close, headerEnd + 1, closeAt) && end == closeAt + |m.close|
    && at + |m.open| <= headerEnd < closeAt <= |text|
    && read(text[at + |m.open|..headerEnd], text[headerEnd + 1..closeAt]) == Some(block)
  }

  lemma BlockIs(m: TagMarkers, read: ToolReader, text: string, at: nat, block: ContentBlock, end: nat)
    requires OccursAt(text, at, m.open)
    ensures ParseToolUseBlock(m, read, text, at) == ToolRead(block, end) <==>
            exists headerEnd: nat, closeAt: nat :: BlockAt(m, read, text, at, block, end, headerEnd, closeAt)
  {
    if ParseToolUseBlock(m, read, text, at) == ToolRead(block, end) {
      var frame := Frame(m, text, at);
      FrameIs(m, text, at, frame.headerEnd, frame.closeAt);
      assert BlockAt(m, read, text, at, block, end, frame.headerEnd, frame.closeAt);
    }
    forall headerEnd: nat, closeAt: nat | BlockAt(m, read, text, at, block, end, headerEnd, closeAt)
      ensures ParseToolUseBlock(m, read, text, at) == ToolRead(block, end)
    {
      FrameIs(m, text, at, headerEnd, closeAt);
    }
  }

  lemma FrameIs(m: TagMarkers, text: string, at: nat, headerEnd: nat, closeAt: nat)
    requires OccursAt(text, at, m.open)
    ensures Frame(m, text, at) == Framed(headerEnd, closeAt) <==>
            FirstAt(text, ">", at, headerEnd) && FirstAt(text, m.close, headerEnd + 1, closeAt)
  {
    FirstIsFound(text, ">", at, headerEnd);
    FirstIsFound(text, m.close, headerEnd + 1, closeAt);
  }

  // ---------- The texts between ----------

  /** No open marker stands at a position from `from` up to `to'`. */
  ghost predicate NoMarker(m: TagMarkers, text: string, from: nat, to': nat) {
    forall j | from <= j < to' :: !OccursAt(text, j, m.open)
  }

  /** A text without markers, up to a marker that starts a block or to the end: it is trimmed. */
  ghost predicate IsTrimmed(m: TagMarkers, read: ToolReader, text: string, p: Piece) {
    && p.start <= p.end <= |text| && NoMarker(m, text, p.start, p.end)
    && (p.end == |text| || (OccursAt(text, p.end, m.open) && ParseToolUseBlock(m, read, text, p.end).ToolRead?))
    && p.block == Text(Trim(text[p.start..p.end]))
  }

  /** A text whose first marker is at its end and starts no block: it is kept as it is. */
  ghost predicate IsWhole(m: TagMarkers, read: ToolReader, text: string, p: Piece) {
    p.start + |m.open| <= p.end <= |text| && var at := p.end - |m.open|;
    && NoMarker(m, text, p.start, at) && OccursAt(text, at, m.open) && ParseToolUseBlock(m, read, text, at).NoTool?
    && p.block == Text(text[p.start..p.end])
  }

  ghost predicate TextsRight(m: TagMarkers, read: ToolReader, text: string, pieces: Pieces) {
    match pieces
    case Done => true
    case Then(p, rest) =>
      (p.block.Text? ==> IsTrimmed(m, read, text, p) || IsWhole(m, read, text, p)) && TextsRight(m, read, text, rest)
  }

  lemma TrimmedFirst(m: TagMarkers, read: ToolReader, text: string, from: nat, end: nat, rest: Pieces)
    requires from <= end <= |text| && TextsRight(m, read, text, rest)
    requires IsTrimmed(m, read, text, Piece(Text(Trim(text[from..end])), from, end))
    ensures TextsRight(m, read, text, WithWords(text, from, end, rest))
  {
  }

  lemma WholeFirst(m: TagMarkers, read: ToolReader, text: string, from: nat, end: nat, rest: Pieces)
    requires from <= end <= |text| && TextsRight(m, read, text, rest)
    requires IsWhole(m, read, text, Piece(Text(text[from..end]), from, end))
    ensures TextsRight(m, read, text, WithMarked(text, from, end, rest))
  {
  }

  lemma ToolFirst(m: TagMarkers, read: ToolReader, text: string, p: Piece, rest: Pieces)
    requires !p.block.Text? && TextsRight(m, read, text, rest)
    ensures TextsRight(m, read, text, Then(p, rest))
  {
  }

  lemma NextRight(m: TagMarkers, read: ToolReader, text: string, from: nat, at: nat, tool: ToolRead, next: nat,
                  rest: Pieces)
    requires ReadsTools(read) && from <= at <= next <= |text| && OccursAt(text, at, m.open) && NoMarker(m, text, from, at)
    requires ParseToolUseBlock(m, read, text, at) == tool && TextsRight(m, read, text, rest)
    requires next == (if tool.ToolRead? then tool.end else at + |m.open|)
    ensures TextsRight(m, read, text, PiecesAt(text, from, at, tool, next, rest))
  {
    match tool
    case ToolRead(block, end) =>
      ToolFirst(m, read, text, Piece(block, at, end), rest);
      TrimmedFirst(m, read, text, from, at, Then(Piece(block, at, end), rest));
    case NoTool => WholeFirst(m, read, text, from, next, rest);
  }

  /** Which texts are kept as they are and which are trimmed, for every text: the pieces of reading leave no
      block unread. */
  lemma {:induction false} TextsAreRight(m: TagMarkers, read: ToolReader, text: string, from: nat)
    requires ReadsTools(read) && from <= |text|
    ensures TextsRight(m, read, text, ParsePieces(m, read, text, from))
    decreases |text| - from
  {
    var found := FindFrom(text, m.open, from);
    if found.None? {
      TrimmedFirst(m, read, text, from, |text|, Done);
    } else {
      var at := found.value;
      var tool := ParseToolUseBlock(m, read, text, at);
      var next := if tool.ToolRead? then tool.end else at + |m.open|;
      TextsAreRight(m, read, text, next);
      PiecesUnfold(m, read, text, from, at, tool, next);
      NextRight(m, read, text, from, at, tool, next, ParsePieces(m, read, text, next));
    }
  }
}
