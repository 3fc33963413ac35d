/** What each kind of content block is written as (crates/rust-agent/src/model_service.rs), by position;
    which results can be told apart; and which messages have nothing to send. */
module BlockText {
  import opened Options
  import opened Strings
  import opened ToolTagFiltering
  import opened AssistantContent
  import opened Rendering

  /** Where seven pieces stand. */
  lemma SevenPlaces(t: string, p0: string, p1: string, p2: string, p3: string, p4: string, p5: string, p6: string)
    requires t == p0 + p1 + p2 + p3 + p4 + p5 + p6
    ensures var n1 := |p0| + |p1|;
            var n3 := n1 + |p2| + |p3|;
            var n5 := n3 + |p4| + |p5|;
            && |t| == n5 + |p6|
            && t[..|p0|] == p0 && t[|p0|..n1] == p1 && t[n1..n1 + |p2|] == p2 && t[n1 + |p2|..n3] == p3
            && t[n3..n3 + |p4|] == p4 && t[n3 + |p4|..n5] == p5 && t[n5..] == p6
  {
  }

  /** A text is written as it is, and an image not as text. */
  lemma TextStays(m: ToolMarkers, json: JsonCodec, b: ContentBlock)
    ensures b.Text? ==> RenderBlock(m, json, b) == b.text
    ensures b.Image? ==> RenderBlock(m, json, b) == ""
  {
  }

  /** A tool call: a line break, the open marker with id and name, the input on lines of its own, the close
      marker, a line break. */
  lemma UsePlaces(m: ToolMarkers, json: JsonCodec, id: string, name: string, input: Json)
    ensures var t, j := RenderBlock(m, json, ToolUse(id, name, input)), json.write(input);
            var i := |m.open| + 6;
            var n := i + |id| + 8;
            var from := n + |name| + 3;
            var end := from + |j|;
            && |t| == end + |m.close| + 2
            && t[..1] == "\n" && t[1..i - 5] == m.open && t[i - 5..i] == " id=\"" && t[i..i + |id|] == id
            && t[i + |id|..n] == "\" name=\"" && t[n..n + |name|] == name && t[n + |name|..from] == "\">\n"
            && t[from..end] == j && t[end..end + 1] == "\n" && t[end + 1..|t| - 1] == m.close && t[|t| - 1..] == "\n"
  {
    var t, j := RenderBlock(m, json, ToolUse(id, name, input)), json.write(input);
    Flat(m.open, " id=\"", id, "\" name=\"", name, "\">\n", j, m.close);
    assert Inside(json, id, name, input) == " id=\"" + id + "\" name=\"" + name + "\">\n" + j + "\n" by {
      Quoted(id, name);
    }
    SevenPlaces(t, "\n" + m.open + " id=\"", id, "\" name=\"", name, "\">\n", j, "\n" + m.close + "\n");
    Ends(t, m.open, " id=\"", m.close);
  }

  lemma Quoted(id: string, name: string)
    ensures Header(id, name) + ">" + "\n" == " id=\"" + id + "\" name=\"" + name + "\">\n"
  {
  }

  lemma Flat(open: string, p0: string, id: string, p2: string, name: string, p4: string, j: string, close: string)
    ensures "\n" + open + (p0 + id + p2 + name + p4 + j + "\n") + close + "\n" ==
            ("\n" + open + p0) + id + p2 + name + p4 + j + ("\n" + close + "\n")
  {
  }

  /** What stands in the first and the last of the pieces. */
  lemma Ends(t: string, open: string, p0: string, close: string)
    requires |t| >= |open| + |p0| + |close| + 3
    requires t[..1 + |open| + |p0|] == "\n" + open + p0 && t[|t| - |close| - 2..] == "\n" + close + "\n"
    ensures t[..1] == "\n" && t[1..1 + |open|] == open && t[1 + |open|..1 + |open| + |p0|] == p0
    ensures t[|t| - |close| - 2..|t| - |close| - 1] == "\n" && t[|t| - |close| - 1..|t| - 1] == close && t[|t| - 1..] == "\n"
  {
    var first, last := "\n" + open + p0, "\n" + close + "\n";
    var n := |t| - |close| - 2;
    assert first[..1] == "\n" && first[1..1 + |open|] == open && first[1 + |open|..] == p0;
    assert last[..1] == "\n" && last[1..1 + |close|] == close && last[1 + |close|..] == "\n";
  }

  // ---------- Tool results ----------

  /** A tool result: a line break, the marker with id and `true` or `false`, the content on lines of its own,
      the close marker, a line break. */
  lemma ResultPlaces(m: ToolMarkers, json: JsonCodec, id: string, content: string, isError: bool)
    ensures var t, flag := RenderBlock(m, json, ToolResult(id, content, isError)), if isError then "true" else "false";
            var from := |id| + |flag| + 33;
            && |t| == from + |content| + 16
            && t[..18] == "\n<tool_result id=\"" && t[18..|id| + 18] == id && t[|id| + 18..|id| + 30] == "\" is_error=\""
            && t[|id| + 30..from - 3] == flag && t[from - 3..from] == "\">\n"
            && t[from..from + |content|] == content && t[from + |content|..] == "\n</tool_result>\n"
  {
    var t, flag := RenderBlock(m, json, ToolResult(id, content, isError)), if isError then "true" else "false";
    SevenPlaces(t, "\n<tool_result id=\"", id, "\" is_error=\"", flag, "\">\n", content, "\n</tool_result>\n");
  }

  /** Two texts with the same fixed pieces agree in the others, if the first of those ends at a quote. */
  lemma PiecesApart(p0: string, a1: string, p2: string, a3: string, p4: string, a5: string, p6: string,
                    b1: string, b3: string, b5: string)
    requires p0 + a1 + p2 + a3 + p4 + a5 + p6 == p0 + b1 + p2 + b3 + p4 + b5 + p6
    requires IsAt(p2, 0, '"') && Without(a1, '"') && Without(b1, '"')
    requires a3 != "" && b3 != "" && (a3[0] == b3[0] ==> a3 == b3)
    ensures a1 == b1 && a3 == b3 && a5 == b5
  {
    var t := p0 + a1 + p2 + a3 + p4 + a5 + p6;
    SevenPlaces(t, p0, a1, p2, a3, p4, a5, p6);
    SevenPlaces(t, p0, b1, p2, b3, p4, b5, p6);
    var a, b := |p0| + |a1|, |p0| + |b1|;
    assert t[a] == '"' by { assert t[a..a + |p2|][0] == p2[0]; }
    assert t[b] == '"' by { assert t[b..b + |p2|][0] == p2[0]; }
    assert a == b by {
      if a < b {
        assert t[|p0|..b][|a1|] == b1[|a1|];
        NotIn(b1, '"', |a1|);
      }
      if b < a {
        assert t[|p0|..a][|b1|] == a1[|b1|];
        NotIn(a1, '"', |b1|);
      }
    }
    assert t[a + |p2|] == a3[0] by { assert t[a + |p2|..a + |p2| + |a3|][0] == a3[0]; }
    assert t[a + |p2|] == b3[0] by { assert t[a + |p2|..a + |p2| + |b3|][0] == b3[0]; }
  }

  /** Equal text, equal result, when the ids have no quote. */
  lemma ResultsApart(m: ToolMarkers, json: JsonCodec, a: ContentBlock, b: ContentBlock)
    requires a.ToolResult? && b.ToolResult? && Without(a.toolUseId, '"') && Without(b.toolUseId, '"')
    requires RenderBlock(m, json, a) == RenderBlock(m, json, b)
    ensures a == b
  {
    PiecesApart("\n<tool_result id=\"", a.toolUseId, "\" is_error=\"", if a.isError then "true" else "false", "\">\n",
                a.content, "\n</tool_result>\n", b.toolUseId, if b.isError then "true" else "false", b.content);
  }

  // ---------- Messages with nothing to send ----------

  /** Texts, all of them blank. */
  ghost predicate BlankTexts(blocks: seq<ContentBlock>) {
    forall i | 0 <= i < |blocks| :: blocks[i].Text? && AllWhitespace(blocks[i].text)
  }

  lemma NotBlankAt(t: string, i: nat)
    requires i < |t| && !IsWhitespace(t[i])
    ensures !AllWhitespace(t)
  {
    assert !WhitespaceAt(t, i);
  }

  lemma UseNotBlank(m: ToolMarkers, json: JsonCodec, id: string, name: string, input: Json)
    ensures !AllWhitespace(RenderBlock(m, json, ToolUse(id, name, input)))
  {
    var t := RenderBlock(m, json, ToolUse(id, name, input));
    UsePlaces(m, json, id, name, input);
    assert t[1] == m.open[0] by { assert t[1..|m.open| + 1][0] == m.open[0]; }
    NotBlankAt(t, 1);
  }

  lemma ResultNotBlank(m: ToolMarkers, json: JsonCodec, id: string, content: string, isError: bool)
    ensures !AllWhitespace(RenderBlock(m, json, ToolResult(id, content, isError)))
  {
    var t := RenderBlock(m, json, ToolResult(id, content, isError));
    ResultPlaces(m, json, id, content, isError);
    assert t[1] == '<' by { assert t[..18][1] == '<'; }
    NotBlankAt(t, 1);
  }

  lemma BlankBlock(m: ToolMarkers, json: JsonCodec, b: ContentBlock)
    requires !b.Image?
    ensures AllWhitespace(RenderBlock(m, json, b)) <==> b.Text? && AllWhitespace(b.text)
  {
    if b.ToolUse? { UseNotBlank(m, json, b.id, b.name, b.input); }
    if b.ToolResult? { ResultNotBlank(m, json, b.toolUseId, b.content, b.isError); }
    TextStays(m, json, b);
  }

  lemma BlankTextsStep(blocks: seq<ContentBlock>)
    requires blocks != []
    ensures BlankTexts(blocks) <==> blocks[0].Text? && AllWhitespace(blocks[0].text) && BlankTexts(blocks[1..])
  {
    if BlankTexts(blocks) {
      forall i | 0 <= i < |blocks| - 1 ensures blocks[1..][i].Text? && AllWhitespace(blocks[1..][i].text) {
        assert blocks[1..][i] == blocks[i + 1];
      }
    } else if blocks[0].Text? && AllWhitespace(blocks[0].text) && BlankTexts(blocks[1..]) {
      forall i | 0 <= i < |blocks| ensures blocks[i].Text? && AllWhitespace(blocks[i].text) {
        assert i > 0 ==> blocks[1..][i - 1] == blocks[i];
      }
    }
  }

  /** Without images, what is written is blank exactly when there are only blank texts: a tool call or a tool
      result is never blank. */
  lemma {:induction false} BlankExactly(m: ToolMarkers, json: JsonCodec, blocks: seq<ContentBlock>)
    requires forall i | 0 <= i < |blocks| :: !blocks[i].Image?
    ensures AllWhitespace(RenderText(m, json, blocks)) <==> BlankTexts(blocks)
    decreases |blocks|
  {
    if blocks != [] {
      BlankExactly(m, json, blocks[1..]);
      BlankBlock(m, json, blocks[0]);
      AllWhitespaceSplit(RenderBlock(m, json, blocks[0]), RenderText(m, json, blocks[1..]));
      BlankTextsStep(blocks);
    }
  }
}
