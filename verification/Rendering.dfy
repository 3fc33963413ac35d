/** Content blocks written as protocol text (crates/rust-agent/src/model_service.rs), the round trip
    through the parser, and what the streaming filter shows of a rendered message. */
module Rendering {
  import opened Options
  import opened Strings
  import opened ToolTagFiltering
  import opened AssistantContent

  /** What writing and finding tool blocks needs of the markers besides. */
  type ToolMarkers = m: TagMarkers |
    Without(m.open, '\n') && Without(m.close, '\n') && Without(m.close, '"') && |m.open| > 1 && |m.close| > 6 && m.close[|m.close| - 1] == '>'
    witness TOOL_USE

  function Header(id: string, name: string): string {
    " id=" + ['"'] + id + ['"'] + " name=" + ['"'] + name + ['"']
  }

  /** A tool block between its open marker and its close marker. */
  function Inside(json: JsonCodec, id: string, name: string, input: Json): string {
    Header(id, name) + ">" + "\n" + json.write(input) + "\n"
  }

  function ShowBool(b: bool): string {
    if b then "true" else "false"
  }

  function RenderBlock(m: ToolMarkers, json: JsonCodec, b: ContentBlock): string {
    match b
    case Text(t) => t
    case Image(_, _) => ""
    case ToolUse(id, name, input) => "\n" + m.open + Inside(json, id, name, input) + m.close + "\n"
    case ToolResult(id, content, isError) =>
      "\n<tool_result id=\"" + id + "\" is_error=\"" + ShowBool(isError) + "\">\n" + content + "\n</tool_result>\n"
  }

  function RenderText(m: ToolMarkers, json: JsonCodec, blocks: seq<ContentBlock>): string {
    if blocks == [] then "" else RenderBlock(m, json, blocks[0]) + RenderText(m, json, blocks[1..])
  }

  /** What the round trip needs of JSON: printing is undone by parsing, and prints no outer whitespace. */
  ghost predicate Lawful(json: JsonCodec) {
    forall v :: json.parse(json.write(v)) == Some(v) && Trimmed(json.write(v))
  }

  predicate Attribute(s: string) {
    s != "" && Without(s, '"') && Without(s, '>')
  }

  predicate RenderableBlock(m: ToolMarkers, json: JsonCodec, b: ContentBlock) {
    match b
    case Text(t) => Trimmed(t) && Clean(t, m.open)
    case ToolUse(id, name, input) => Attribute(id) && Attribute(name) && Clean(json.write(input), m.close)
    case _ => false
  }

  /** Blocks whose rendering can be told apart again: no two texts stand next to each other. */
  predicate Renderable(m: ToolMarkers, json: JsonCodec, blocks: seq<ContentBlock>) {
    && (forall i | 0 <= i < |blocks| :: RenderableBlock(m, json, blocks[i]))
    && (forall i | 0 <= i < |blocks| - 1 :: !(blocks[i].Text? && blocks[i + 1].Text?))
  }

  // ---------- Attributes ----------

  predicate EndsWithName(id: string) {
    |id| >= 5 && id[|id| - 5..] == "name="
  }

  /** The name that a header reads back as: an id that ends in `name=` is taken for the attribute. */
  function ReadName(id: string, name: string): string {
    if EndsWithName(id) then " name=" else name
  }

  lemma AttrAt(header: string, key: string, at: nat, value: string, rest: string)
    requires Find(header, key + "=\"") == Some(at) && value != "" && Without(value, '"')
    requires at + |key| + 2 <= |header| && header[at + |key| + 2..] == value + ['"'] + rest
    ensures ParseAttr(header, key) == Some(value)
  {
    var start := at + |key| + 2;
    var end := start + |value|;
    assert header[end] == header[start..][|value|] == '"';
    assert MatchAt(header, end, "\"", 0);
    forall j | start <= j < end ensures !OccursAt(header, j, "\"") {
      assert header[j] == header[start..][j - start] == value[j - start];
      if OccursAt(header, j, "\"") {
        MatchGives(header, j, "\"", 0);
        NotIn(value, '"', j - start);
      }
    }
    FindFromIs(header, "\"", start, end);
    assert header[start..end] == header[start..][..|value|] == value;
  }

  lemma IdAttr(id: string, name: string)
    requires Attribute(id) && Attribute(name)
    ensures ParseAttr(Header(id, name), "id") == Some(id)
  {
    var h, marker := Header(id, name), "id=\"";
    assert "id" + "=\"" == marker;
    assert h[1..5] == marker && h[5..] == id + ['"'] + (" name=" + ['"'] + name + ['"']);
    OccursIsSlice(h, 1, marker);
    assert h[0] == ' ';
    if OccursAt(h, 0, marker) { MatchGives(h, 0, marker, 0); }
    FindIs(h, marker, 1);
    AttrAt(h, "id", 1, id, " name=" + ['"'] + name + ['"']);
  }

  lemma NameAttr(id: string, name: string)
    requires Attribute(id) && Attribute(name)
    ensures ParseAttr(Header(id, name), "name") == Some(ReadName(id, name))
  {
    var h, marker := Header(id, name), "name=\"";
    assert "name" + "=\"" == marker;
    var at := if EndsWithName(id) then |id| else |id| + 7;
    forall j | 0 <= j < at ensures !OccursAt(h, j, marker) {
      if OccursAt(h, j, marker) { NoEarlierName(id, name, j); }
    }
    if EndsWithName(id) {
      assert h[at..at + 6] == id[|id| - 5..] + ['"'] == marker;
      assert h[at + 6..] == " name=" + ['"'] + (name + ['"']);
    } else {
      assert h[at..at + 6] == marker;
      assert h[at + 6..] == name + ['"'] + "";
    }
    OccursIsSlice(h, at, marker);
    FindIs(h, marker, at);
    AttrAt(h, "name", at, ReadName(id, name), if EndsWithName(id) then name + ['"'] else "");
  }

  /** The name attribute is found at its place, or at the end of an id that ends in `name=`. */
  lemma NoEarlierName(id: string, name: string, j: nat)
    requires Attribute(id) && Attribute(name) && OccursAt(Header(id, name), j, "name=\"")
    ensures j >= |id| + 7 || (j == |id| && EndsWithName(id))
  {
    var h, marker := Header(id, name), "name=\"";
    MatchGives(h, j, marker, 5);
    if j < |id| {
      QuoteInHeader(id, name, j + 5);
    } else if j == |id| {
      if |id| >= 5 {
        OccursIsSlice(h, j, marker);
        assert id[|id| - 5..] == h[j..j + 5] == h[j..j + 6][..5] == "name=";
      } else {
        MatchGives(h, j, marker, 4 - j);
        QuoteInHeader(id, name, 4);
      }
    } else if j < |id| + 7 {
      QuoteInHeader(id, name, j + 5);
    }
  }

  /** Where the quotes are up to the name. */
  lemma QuoteInHeader(id: string, name: string, q: nat)
    requires Without(id, '"') && q < |id| + 12
    ensures IsAt(Header(id, name), q, '"') <==> q == 4 || q == |id| + 5
  {
    var h := Header(id, name);
    if 5 <= q < |id| + 5 {
      assert h[q] == id[q - 5];
      NotIn(id, '"', q - 5);
    } else if |id| + 6 <= q {
      assert h[|id| + 6..|id| + 12] == " name=";
      assert h[q] == h[|id| + 6..|id| + 12][q - |id| - 6];
    }
  }

  // ---------- One tool block ----------

  lemma ToolReads(json: JsonCodec, id: string, name: string, input: Json)
    requires Lawful(json) && Attribute(id) && Attribute(name)
    ensures ReadTool(json, Header(id, name), "\n" + json.write(input) + "\n")
         == Some(ToolUse(id, ReadName(id, name), input))
  {
    IdAttr(id, name);
    NameAttr(id, name);
    assert WhitespaceAt("\n", 0);
    TrimPad("\n", json.write(input), "\n");
  }

  /** The header of a block opened at `at` is found to be `h`. */
  lemma HeaderFound(text: string, at: nat, open: string, h: string, body: string)
    requires at <= |text| && text[at..] == open + h + ">" + body && Without(open, '>') && Without(h, '>')
    ensures var headerEnd := at + |open| + |h|;
            && headerEnd < |text| && FindFrom(text, ">", at) == Some(headerEnd)
            && text[at + |open|..headerEnd] == h && text[headerEnd + 1..] == body
  {
    FindFromShift(text, ">", at);
    WithoutJoin(open, h, '>');
    FindChar(open + h, '>', body);
    PastBeginning(text, at, open + h + ">", body);
    assert open + h + ">" + body == open + (h + (">" + body));
    PastBeginning(text, at, open, h + (">" + body));
    PastBeginning(text, at + |open|, h, ">" + body);
  }

  /** The body of a block is found to end where its close marker is written. */
  lemma BodyFound(text: string, bodyStart: nat, close: string, j: string, post: string)
    requires Clean(j, close) && |close| > 1 && Without(close, '\n')
    requires bodyStart <= |text| && text[bodyStart..] == "\n" + j + "\n" + (close + post)
    ensures var closeAt := bodyStart + |j| + 2;
            && FindFrom(text, close, bodyStart) == Some(closeAt) && closeAt + |close| == |text| - |post|
            && text[bodyStart..closeAt] == "\n" + j + "\n" && text[closeAt + |close|..] == post
  {
    FindFromShift(text, close, bodyStart);
    CleanShort("", close);
    CleanJoin("", '\n', j, close);
    assert "" + ['\n'] + j == "\n" + j;
    FindAfter("\n" + j, '\n', close, post);
    PastBeginning(text, bodyStart, "\n" + j + "\n", close + post);
    PastBeginning(text, bodyStart + |j| + 2, close, post);
  }

  lemma FrameFound(m: TagMarkers, text: string, at: nat, h: string, j: string, post: string)
    requires OccursAt(text, at, m.open) && |m.close| > 1 && Without(m.close, '\n') && Without(h, '>') && Clean(j, m.close)
    requires text[at..] == m.open + h + ">" + ("\n" + j + "\n" + (m.close + post))
    ensures var headerEnd := at + |m.open| + |h|;
            var closeAt := headerEnd + 1 + |j| + 2;
            && Frame(m, text, at) == Framed(headerEnd, closeAt) && closeAt + |m.close| == |text| - |post|
            && text[at + |m.open|..headerEnd] == h && text[headerEnd + 1..closeAt] == "\n" + j + "\n"
            && text[closeAt + |m.close|..] == post
  {
    HeaderFound(text, at, m.open, h, "\n" + j + "\n" + (m.close + post));
    BodyFound(text, at + |m.open| + |h| + 1, m.close, j, post);
  }

  /** The next tool block is found after a line break that follows text without an open marker. */
  lemma OpenFound(text: string, from: nat, pre: string, open: string, post: string)
    requires Clean(pre, open) && open != "" && Without(open, '\n')
    requires from <= |text| && text[from..] == pre + "\n" + (open + post)
    ensures var at := from + |pre| + 1;
            at <= |text| && FindFrom(text, open, from) == Some(at) && text[at..] == open + post
            && text[from..at] == pre + "\n"
  {
    FindFromShift(text, open, from);
    FindAfter(pre, '\n', open, post);
    PastBeginning(text, from, pre + "\n", open + post);
  }

  function Reread(b: ContentBlock): ContentBlock {
    if b.ToolUse? then ToolUse(b.id, ReadName(b.id, b.name), b.input) else b
  }

  /** A rendered tool block is read back from where it stands. */
  lemma ToolAt(m: ToolMarkers, json: JsonCodec, text: string, at: nat, tool: ContentBlock, post: string)
    requires Lawful(json) && tool.ToolUse? && RenderableBlock(m, json, tool)
    requires OccursAt(text, at, m.open)
    requires text[at..] == m.open + (Inside(json, tool.id, tool.name, tool.input) + (m.close + post))
    ensures var end := |text| - |post|;
            && at <= end && text[end..] == post
            && ParseToolUseBlock(m, ReaderOf(json), text, at) == ToolRead(Reread(tool), end)
  {
    var h, j := Header(tool.id, tool.name), json.write(tool.input);
    Regroup(m.open, h, j, m.close, post);
    ReaderReads(json, tool.id, tool.name, tool.input);
    FramedTool(m, ReaderOf(json), text, at, h, j, post, Reread(tool));
  }

  lemma ReaderReads(json: JsonCodec, id: string, name: string, input: Json)
    requires Lawful(json) && Attribute(id) && Attribute(name)
    ensures ReaderOf(json)(Header(id, name), "\n" + json.write(input) + "\n")
         == Some(ToolUse(id, ReadName(id, name), input))
    ensures Without(Header(id, name), '>')
  {
    ToolReads(json, id, name, input);
    HeaderWithout(id, name);
  }

  lemma HeaderWithout(id: string, name: string)
    requires Attribute(id) && Attribute(name)
    ensures Without(Header(id, name), '>')
  {
    var h := Header(id, name);
    assert h == " id=\"" + id + "\" name=\"" + name + "\"";
    WithoutJoin(" id=\"", id, '>');
    WithoutJoin(" id=\"" + id, "\" name=\"", '>');
    WithoutJoin(" id=\"" + id + "\" name=\"", name, '>');
    WithoutJoin(" id=\"" + id + "\" name=\"" + name, "\"", '>');
  }

  lemma FramedTool(m: TagMarkers, read: ToolReader, text: string, at: nat, h: string, j: string, post: string,
                   block: ContentBlock)
    requires OccursAt(text, at, m.open) && |m.close| > 1 && Without(m.close, '\n') && Without(h, '>') && Clean(j, m.close)
    requires text[at..] == m.open + h + ">" + ("\n" + j + "\n" + (m.close + post))
    requires read(h, "\n" + j + "\n") == Some(block)
    ensures var end := |text| - |post|;
            at <= end && text[end..] == post && ParseToolUseBlock(m, read, text, at) == ToolRead(block, end)
  {
    FrameFound(m, text, at, h, j, post);
  }

  lemma Regroup(open: string, h: string, j: string, close: string, post: string)
    ensures open + ((h + ">" + "\n" + j + "\n") + (close + post)) == open + h + ">" + ("\n" + j + "\n" + (close + post))
  {
  }

  // ---------- The round trip ----------

  function RereadAll(blocks: seq<ContentBlock>): seq<ContentBlock> {
    if blocks == [] then [] else [Reread(blocks[0])] + RereadAll(blocks[1..])
  }

  /** A rendered tool block after text without an open marker: where its marker is found. */
  lemma LocateOpen(m: ToolMarkers, json: JsonCodec, text: string, from: nat, pre: string, at: nat, tool: ContentBlock,
                   more: string)
    requires tool.ToolUse? && Clean(pre, m.open) && at == from + |pre| + 1
    requires from <= |text| && text[from..] == pre + (RenderBlock(m, json, tool) + more)
    ensures at <= |text| && FindFrom(text, m.open, from) == Some(at) && text[from..at] == pre + "\n"
    ensures text[at..] == m.open + (Inside(json, tool.id, tool.name, tool.input) + (m.close + ("\n" + more)))
  {
    var inside := Inside(json, tool.id, tool.name, tool.input);
    RegroupTool(pre, m.open, inside, m.close, more);
    OpenFound(text, from, pre, m.open, inside + (m.close + ("\n" + more)));
  }

  lemma ReadPastTool(m: ToolMarkers, json: JsonCodec, text: string, from: nat, pre: string, tool: ContentBlock, more: string)
      returns (end: nat)
    requires Lawful(json) && tool.ToolUse? && RenderableBlock(m, json, tool)
    requires Clean(pre, m.open) && from <= |text| && text[from..] == pre + (RenderBlock(m, json, tool) + more)
    ensures end <= |text| && text[end..] == "\n" + more
    ensures Blocks(ParsePieces(m, ReaderOf(json), text, from))
         == WordsOf(pre + "\n") + ([Reread(tool)] + Blocks(ParsePieces(m, ReaderOf(json), text, end)))
  {
    var at;
    at, end := PlaceTool(m, json, text, from, pre, tool, more);
    PiecesAtTool(m, ReaderOf(json), text, from, at, Reread(tool), end);
  }

  /** The next block that is found is the tool block, and it is read to its end. */
  lemma PlaceTool(m: ToolMarkers, json: JsonCodec, text: string, from: nat, pre: string, tool: ContentBlock, more: string)
      returns (at: nat, end: nat)
    requires Lawful(json) && tool.ToolUse? && RenderableBlock(m, json, tool)
    requires Clean(pre, m.open) && from <= |text| && text[from..] == pre + (RenderBlock(m, json, tool) + more)
    ensures at <= end <= |text| && FindFrom(text, m.open, from) == Some(at) && text[from..at] == pre + "\n"
    ensures text[end..] == "\n" + more && ParseToolUseBlock(m, ReaderOf(json), text, at) == ToolRead(Reread(tool), end)
  {
    at, end := from + |pre| + 1, |text| - |more| - 1;
    LocateOpen(m, json, text, from, pre, at, tool, more);
    ToolAt(m, json, text, at, tool, "\n" + more);
  }

  function WordsOf(s: string): seq<ContentBlock> {
    if Trim(s) == "" then [] else [Text(Trim(s))]
  }

  lemma RegroupTool(pre: string, open: string, inside: string, close: string, more: string)
    ensures pre + ("\n" + open + inside + close + "\n" + more)
         == pre + "\n" + (open + (inside + (close + ("\n" + more))))
  {
  }

  lemma PiecesAtTool(m: TagMarkers, read: ToolReader, text: string, from: nat, at: nat, block: ContentBlock, end: nat)
    requires from <= |text| && FindFrom(text, m.open, from) == Some(at)
    requires ParseToolUseBlock(m, read, text, at) == ToolRead(block, end)
    ensures Blocks(ParsePieces(m, read, text, from))
         == WordsOf(text[from..at]) + ([block] + Blocks(ParsePieces(m, read, text, end)))
  {
  }

  lemma {:induction false} PiecesAtEnd(m: TagMarkers, read: ToolReader, text: string, from: nat)
    requires from <= |text| && Clean(text[from..], m.open)
    ensures Blocks(ParsePieces(m, read, text, from)) == WordsOf(text[from..])
  {
    FindFromShift(text, m.open, from);
    assert text[from..|text|] == text[from..];
  }

  /** The text of the blocks that come before the next tool block. */
  lemma TextBefore(m: ToolMarkers, w: string, t: string)
    requires w == "" || w == "\n"
    requires Trimmed(t) && Clean(t, m.open)
    ensures Clean(w + t, m.open) && Trim(w + t) == t && Trim(w + t + "\n") == t
  {
    var open := m.open;
    CleanShort("", open);
    CleanJoin("", '\n', t, open);
    assert "" + ['\n'] + t == "\n" + t && "" + t == t;
    assert AllWhitespace("") && WhitespaceAt("\n", 0);
    TrimPad(w, t, "");
    TrimPad(w, t, "\n");
    assert w + t + "" == w + t;
  }

  lemma BlankBefore(m: ToolMarkers, w: string)
    requires w == "" || w == "\n"
    ensures Clean(w, m.open) && Trim(w) == "" && Trim(w + "\n") == ""
  {
    CleanShort(w, m.open);
    assert AllWhitespace("") && WhitespaceAt("\n", 0) && WhitespaceAt("\n\n", 0) && WhitespaceAt("\n\n", 1);
    TrimBlank(w);
    TrimBlank(w + "\n");
  }

  lemma {:induction false} ReadBack(m: ToolMarkers, json: JsonCodec, text: string, from: nat, w: string, blocks: seq<ContentBlock>)
    requires Lawful(json) && Renderable(m, json, blocks) && (w == "" || w == "\n")
    requires from <= |text| && text[from..] == w + RenderText(m, json, blocks)
    ensures Blocks(ParsePieces(m, ReaderOf(json), text, from)) == RereadAll(blocks)
    decreases |blocks|
  {
    BlankBefore(m, w);
    if blocks == [] {
      assert RenderText(m, json, blocks) == "" && w + "" == w;
      PiecesAtEnd(m, ReaderOf(json), text, from);
    } else if blocks[0].ToolUse? {
      var end := ReadPastTool(m, json, text, from, w, blocks[0], RenderText(m, json, blocks[1..]));
      ReadBack(m, json, text, end, "\n", blocks[1..]);
    } else if |blocks| == 1 {
      TextBefore(m, w, blocks[0].text);
      assert RenderText(m, json, blocks) == blocks[0].text;
      PiecesAtEnd(m, ReaderOf(json), text, from);
    } else {
      assert RenderableBlock(m, json, blocks[0]) && RenderableBlock(m, json, blocks[1]);
      ReadTextThenTool(m, json, text, from, w, blocks);
    }
  }

  lemma {:induction false} ReadTextThenTool(m: ToolMarkers, json: JsonCodec, text: string, from: nat, w: string, blocks: seq<ContentBlock>)
    requires Lawful(json) && Renderable(m, json, blocks) && (w == "" || w == "\n")
    requires from <= |text| && text[from..] == w + RenderText(m, json, blocks)
    requires |blocks| >= 2 && blocks[0].Text? && blocks[1].ToolUse?
    ensures Blocks(ParsePieces(m, ReaderOf(json), text, from)) == RereadAll(blocks)
    decreases |blocks|, 0
  {
    var t, tool, rest := blocks[0].text, blocks[1], blocks[2..];
    assert RenderableBlock(m, json, blocks[0]) && RenderableBlock(m, json, tool);
    TextBefore(m, w, t);
    RenderTwo(m, json, w, blocks);
    var end := ReadPastTool(m, json, text, from, w + t, tool, RenderText(m, json, rest));
    ReadBack(m, json, text, end, "\n", rest);
    RereadTwo(blocks);
  }

  lemma RenderTwo(m: ToolMarkers, json: JsonCodec, w: string, blocks: seq<ContentBlock>)
    requires |blocks| >= 2 && blocks[0].Text?
    ensures w + RenderText(m, json, blocks)
         == w + blocks[0].text + (RenderBlock(m, json, blocks[1]) + RenderText(m, json, blocks[2..]))
  {
    assert blocks[1..][1..] == blocks[2..];
    var a, b := blocks[0].text, RenderBlock(m, json, blocks[1]) + RenderText(m, json, blocks[2..]);
    assert w + (a + b) == w + a + b;
  }

  lemma RereadTwo(blocks: seq<ContentBlock>)
    requires |blocks| >= 2
    ensures RereadAll(blocks) == [Reread(blocks[0])] + ([Reread(blocks[1])] + RereadAll(blocks[2..]))
  {
    assert blocks[1..][1..] == blocks[2..];
  }

  lemma {:induction false} RoundTripFor(m: ToolMarkers, json: JsonCodec, blocks: seq<ContentBlock>)
    requires Lawful(json) && Renderable(m, json, blocks)
    ensures Blocks(ParsePieces(m, ReaderOf(json), RenderText(m, json, blocks), 0)) == RereadAll(blocks)
  {
    var text := RenderText(m, json, blocks);
    assert text[0..] == "" + text;
    ReadBack(m, json, text, 0, "", blocks);
  }

  /** The round trip: reading a rendered list of blocks gives the list back, but for the names of tool
      blocks whose id ends in `name=`. */
  lemma RoundTrip(json: JsonCodec, blocks: seq<ContentBlock>)
    requires Lawful(json) && Renderable(TOOL_USE, json, blocks)
    ensures Parsed(json, RenderText(TOOL_USE, json, blocks)) == RereadAll(blocks)
  {
    RoundTripFor(TOOL_USE, json, blocks);
    if blocks == [] { assert RenderText(TOOL_USE, json, blocks) == ""; }
  }

  /** So the list comes back exactly when no id that ends in `name=` hides another name. */
  lemma {:induction false} RoundTripExactly(json: JsonCodec, blocks: seq<ContentBlock>)
    requires Lawful(json) && Renderable(TOOL_USE, json, blocks)
    ensures Parsed(json, RenderText(TOOL_USE, json, blocks)) == blocks
       <==> forall i | 0 <= i < |blocks| && blocks[i].ToolUse? :: EndsWithName(blocks[i].id) ==> blocks[i].name == " name="
  {
    RoundTrip(json, blocks);
    RereadAt(blocks);
  }

  lemma {:induction false} RereadAt(blocks: seq<ContentBlock>)
    ensures |RereadAll(blocks)| == |blocks|
    ensures forall i | 0 <= i < |blocks| :: RereadAll(blocks)[i] == Reread(blocks[i])
  {
    if blocks != [] { RereadAt(blocks[1..]); }
  }

  // ---------- What the filter shows of a rendered message ----------

  /** Text blocks, and the line breaks written around tool blocks. */
  function ShownText(blocks: seq<ContentBlock>): string {
    if blocks == [] then ""
    else (if blocks[0].Text? then blocks[0].text else "\n\n") + ShownText(blocks[1..])
  }

  lemma {:induction false} VisiblePast(m: Markers, s: string, i: nat, k: nat)
    requires i <= k <= |s| && forall j | i <= j < k :: !OccursAt(s, j, m.open)
    ensures Visible(m, s[i..]) == s[i..k] + Visible(m, s[k..])
    decreases k - i
  {
    if i < k {
      OccursIsBegins(s, i, m.open);
      VisiblePast(m, s, i + 1, k);
      assert s[i..][1..] == s[i + 1..] && [s[i]] + s[i + 1..k] == s[i..k];
    } else {
      assert s[i..k] == "";
    }
  }

  lemma {:induction false} HiddenPast(m: Markers, s: string, i: nat, k: nat)
    requires i <= k && OccursAt(s, k, m.close) && forall j | i <= j < k :: !OccursAt(s, j, m.close)
    ensures Hidden(m, s[i..]) == Visible(m, s[k + |m.close|..])
    decreases k - i
  {
    OccursIsBegins(s, i, m.close);
    if i < k {
      HiddenPast(m, s, i + 1, k);
      assert s[i..][1..] == s[i + 1..];
    } else {
      assert s[k..][|m.close|..] == s[k + |m.close|..];
    }
  }

  lemma AllVisible(m: Markers, s: string)
    requires Clean(s, m.open)
    ensures Visible(m, s) == s
  {
    VisiblePast(m, s, 0, |s|);
    assert s[0..] == s && s[0..|s|] == s && s[|s|..] == "";
  }

  /** The inside of a rendered tool block has no close marker before its own. */
  lemma InsideHasNoClose(m: ToolMarkers, json: JsonCodec, id: string, name: string, input: Json)
    requires Attribute(id) && Attribute(name) && Clean(json.write(input), m.close)
    ensures Clean(Header(id, name) + ">" + "\n" + json.write(input), m.close)
  {
    var close, j, last := m.close, json.write(input), |m.close| - 1;
    CleanShort(" id=", close);
    CleanWithout(id, close, last);
    CleanShort(" name=", close);
    CleanWithout(name, close, last);
    CleanShort(">", close);
    CleanJoin(" id=", '"', id, close);
    var a := " id=" + ['"'] + id;
    CleanJoin(a, '"', " name=", close);
    var b := a + ['"'] + " name=";
    CleanJoin(b, '"', name, close);
    var c := b + ['"'] + name;
    CleanJoin(c, '"', ">", close);
    var d := c + ['"'] + ">";
    CleanJoin(d, '\n', j, close);
    assert Header(id, name) + ">" + "\n" + j == d + ['\n'] + j;
  }

  /** Of text before a tool block, the block and what follows it, the block itself is hidden. */
  lemma ShowPastTool(m: ToolMarkers, pre: string, h: string, post: string)
    requires Clean(pre, m.open) && Clean(h, m.close) && h != "" && h[0] == ' '
    ensures Visible(m, pre + "\n" + (m.open + (h + "\n" + (m.close + post)))) == pre + "\n" + Visible(m, post)
  {
    var inside := h + "\n" + (m.close + post);
    var s := pre + "\n" + (m.open + inside);
    FindAfter(pre, '\n', m.open, inside);
    var at := |pre| + 1;
    VisiblePast(m, s, 0, at);
    assert s[0..] == s && s[0..at] == pre + "\n" && s[at..] == m.open + inside;
    OpensTag(m, inside);
    HiddenUpTo(m, h, post);
  }

  lemma OpensTag(m: Markers, inside: string)
    requires inside != "" && inside[0] == ' '
    ensures Visible(m, m.open + inside) == Hidden(m, inside)
  {
    BeginsIsPrefix(m.open + inside, m.open);
    assert (m.open + inside)[|m.open|] == ' ' && (m.open + inside)[|m.open|..] == inside;
  }

  lemma HiddenUpTo(m: ToolMarkers, h: string, post: string)
    requires Clean(h, m.close)
    ensures Hidden(m, h + "\n" + (m.close + post)) == Visible(m, post)
  {
    var s := h + "\n" + (m.close + post);
    FindAfter(h, '\n', m.close, post);
    HiddenPast(m, s, 0, |h| + 1);
    assert s[0..] == s && s[|h| + 1 + |m.close|..] == post;
  }

  lemma ShowRenderedTool(m: ToolMarkers, json: JsonCodec, pre: string, tool: ContentBlock, more: string)
    requires tool.ToolUse? && RenderableBlock(m, json, tool) && Clean(pre, m.open)
    ensures Visible(m, pre + (RenderBlock(m, json, tool) + more)) == pre + "\n" + Visible(m, "\n" + more)
  {
    var j := json.write(tool.input);
    var h := Header(tool.id, tool.name) + ">" + "\n" + j;
    assert Inside(json, tool.id, tool.name, tool.input) + (m.close + ("\n" + more)) == h + "\n" + (m.close + ("\n" + more));
    RegroupTool(pre, m.open, Inside(json, tool.id, tool.name, tool.input), m.close, more);
    InsideHasNoClose(m, json, tool.id, tool.name, tool.input);
    ShowPastTool(m, pre, h, "\n" + more);
  }

  lemma {:induction false} ShowRendered(m: ToolMarkers, json: JsonCodec, w: string, blocks: seq<ContentBlock>)
    requires Renderable(m, json, blocks) && (w == "" || w == "\n")
    ensures Visible(m, w + RenderText(m, json, blocks)) == w + ShownText(blocks)
    decreases |blocks|
  {
    BlankBefore(m, w);
    if blocks == [] {
      AllVisible(m, w);
    } else if blocks[0].ToolUse? {
      ShowRendered(m, json, "\n", blocks[1..]);
      ShowToolFirst(m, json, w, blocks);
    } else if |blocks| == 1 {
      ShowLastText(m, json, w, blocks);
    } else {
      assert RenderableBlock(m, json, blocks[0]) && RenderableBlock(m, json, blocks[1]);
      ShowTextThenTool(m, json, w, blocks);
    }
  }

  lemma ShowToolFirst(m: ToolMarkers, json: JsonCodec, w: string, blocks: seq<ContentBlock>)
    requires Renderable(m, json, blocks) && blocks != [] && blocks[0].ToolUse? && Clean(w, m.open)
    requires Visible(m, "\n" + RenderText(m, json, blocks[1..])) == "\n" + ShownText(blocks[1..])
    ensures Visible(m, w + RenderText(m, json, blocks)) == w + ShownText(blocks)
  {
    var more, shown := RenderText(m, json, blocks[1..]), ShownText(blocks[1..]);
    assert Visible(m, w + (RenderBlock(m, json, blocks[0]) + more)) == w + "\n" + ("\n" + shown) by {
      assert RenderableBlock(m, json, blocks[0]);
      ShowRenderedTool(m, json, w, blocks[0], more);
    }
    assert w + "\n" + ("\n" + shown) == w + ("\n\n" + shown) by { Breaks(w, shown); }
  }

  lemma Breaks(w: string, s: string)
    ensures w + "\n" + ("\n" + s) == w + ("\n\n" + s)
  {
  }

  lemma ShowLastText(m: ToolMarkers, json: JsonCodec, w: string, blocks: seq<ContentBlock>)
    requires Renderable(m, json, blocks) && |blocks| == 1 && blocks[0].Text? && (w == "" || w == "\n")
    ensures Visible(m, w + RenderText(m, json, blocks)) == w + ShownText(blocks)
  {
    assert RenderableBlock(m, json, blocks[0]);
    TextBefore(m, w, blocks[0].text);
    assert RenderText(m, json, blocks) == blocks[0].text == ShownText(blocks);
    AllVisible(m, w + blocks[0].text);
  }

  lemma {:induction false} ShowTextThenTool(m: ToolMarkers, json: JsonCodec, w: string, blocks: seq<ContentBlock>)
    requires Renderable(m, json, blocks) && (w == "" || w == "\n")
    requires |blocks| >= 2 && blocks[0].Text? && blocks[1].ToolUse?
    ensures Visible(m, w + RenderText(m, json, blocks)) == w + ShownText(blocks)
    decreases |blocks|, 0
  {
    var t, rest := blocks[0].text, blocks[2..];
    assert RenderableBlock(m, json, blocks[0]) && RenderableBlock(m, json, blocks[1]);
    TextBefore(m, w, t);
    RenderTwo(m, json, w, blocks);
    ShowRenderedTool(m, json, w + t, blocks[1], RenderText(m, json, rest));
    ShowRendered(m, json, "\n", rest);
    ShownTwo(w, blocks);
  }

  lemma ShownTwo(w: string, blocks: seq<ContentBlock>)
    requires |blocks| >= 2 && blocks[0].Text? && blocks[1].ToolUse?
    ensures w + ShownText(blocks) == w + blocks[0].text + "\n" + ("\n" + ShownText(blocks[2..]))
  {
    assert blocks[1..][1..] == blocks[2..];
    var x := ShownText(blocks[2..]);
    assert w + (blocks[0].text + ("\n\n" + x)) == w + blocks[0].text + "\n" + ("\n" + x);
  }

  lemma ShowWhole(m: ToolMarkers, json: JsonCodec, blocks: seq<ContentBlock>)
    requires Renderable(m, json, blocks)
    ensures Visible(m, RenderText(m, json, blocks)) == ShownText(blocks)
  {
    ShowRendered(m, json, "", blocks);
    assert "" + RenderText(m, json, blocks) == RenderText(m, json, blocks) && "" + ShownText(blocks) == ShownText(blocks);
  }

  /** Filter and parser agree on rendered messages: however the rendering is cut into pieces, the filter
      shows its text blocks and, of each tool block, only the line break before and after it. */
  lemma FilterShowsTheTexts(m: ToolMarkers, json: JsonCodec, blocks: seq<ContentBlock>, chunks: seq<string>)
    requires Renderable(m, json, blocks) && Flatten(chunks) == RenderText(m, json, blocks)
    ensures var end := PushAll(m, Scanned("", false, ""), chunks);
            end.visible + end.Flush() == ShownText(blocks)
  {
    ChunkingIsInvisibleFor(m, chunks);
    ShowWhole(m, json, blocks);
  }
}
