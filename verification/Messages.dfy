/** A conversation message as the model's input (crates/rust-agent/src/model_service.rs): runs of rendered
    text between images. */
module Messages {
  import opened Options
  import opened Strings
  import opened ToolTagFiltering
  import opened AssistantContent
  import opened Rendering
  import opened BlockText

  datatype Part = InputText(text: string) | InputImage(url: string)

  datatype MessageContent = Plain(text: string) | Parts(parts: seq<Part>)

  function ImageUrl(mediaType: string, data: string): string {
    "data:" + mediaType + ";base64," + data
  }

  predicate DataUrl(url: string, mediaType: string, data: string) {
    && |url| == |mediaType| + |data| + 13 && url[..5] == "data:" && url[5..|mediaType| + 5] == mediaType
    && url[|mediaType| + 5..|mediaType| + 13] == ";base64," && url[|mediaType| + 13..] == data
  }

  /** A data URL has the media type and the data at their places, and so is another one for another image when
      media types have no semicolon. */
  lemma ImagesApart(mediaType: string, data: string, otherType: string, otherData: string)
    requires Without(mediaType, ';') && Without(otherType, ';')
    ensures DataUrl(ImageUrl(mediaType, data), mediaType, data)
    ensures ImageUrl(mediaType, data) == ImageUrl(otherType, otherData) ==> mediaType == otherType && data == otherData
  {
    UrlPlaces(mediaType, data);
    UrlPlaces(otherType, otherData);
    if ImageUrl(mediaType, data) == ImageUrl(otherType, otherData) {
      var url := ImageUrl(mediaType, data);
      if |mediaType| < |otherType| { NoLonger(url, mediaType, otherType); }
      if |otherType| < |mediaType| { NoLonger(url, otherType, mediaType); }
    }
  }

  lemma UrlPlaces(mediaType: string, data: string)
    ensures var url := ImageUrl(mediaType, data);
            DataUrl(url, mediaType, data) && url[|mediaType| + 5] == ';'
  {
    var url := ImageUrl(mediaType, data);
    assert url[|mediaType| + 5..|mediaType| + 13] == ";base64,";
    assert ";base64,"[0] == ';';
  }

  lemma NoLonger(url: string, a: string, b: string)
    requires |a| < |b| && |b| + 5 <= |url| && url[5..|b| + 5] == b && url[|a| + 5] == ';'
    ensures !Without(b, ';')
  {
    assert url[5..|b| + 5][|a|] == ';';
    assert IsAt(b, |a|, ';');
  }

  /** A message read through: characters and pictures in order, however the text is grouped. */
  datatype Flow = End | Char(c: char, rest: Flow) | Picture(url: string, rest: Flow)

  function Spell(s: string, rest: Flow): Flow {
    if s == "" then rest else Char(s[0], Spell(s[1..], rest))
  }

  function FlowOf(m: ToolMarkers, json: JsonCodec, blocks: seq<ContentBlock>): Flow {
    if blocks == [] then End
    else match blocks[0]
      case Image(mediaType, data) => Picture(ImageUrl(mediaType, data), FlowOf(m, json, blocks[1..]))
      case b => Spell(RenderBlock(m, json, b), FlowOf(m, json, blocks[1..]))
  }

  function PartFlow(p: Part, rest: Flow): Flow {
    match p
    case InputText(text) => Spell(text, rest)
    case InputImage(url) => Picture(url, rest)
  }

  function PartsFlow(parts: seq<Part>, rest: Flow): Flow {
    if parts == [] then rest else PartsFlow(parts[..|parts| - 1], PartFlow(parts[|parts| - 1], rest))
  }

  /** Text is grouped as far as it goes: no text part is empty, and none follows another. */
  ghost predicate Grouped(parts: seq<Part>) {
    && (forall i | 0 <= i < |parts| :: parts[i].InputText? ==> parts[i].text != "")
    && (forall i | 0 <= i < |parts| - 1 :: parts[i].InputImage? || parts[i + 1].InputImage?)
  }

  ghost predicate NoImage(blocks: seq<ContentBlock>) {
    forall i | 0 <= i < |blocks| :: !blocks[i].Image?
  }

  lemma {:induction false} SpellSplit(a: string, b: string, rest: Flow)
    ensures Spell(a + b, rest) == Spell(a, Spell(b, rest))
  {
    if a == "" {
      assert a + b == b;
    } else {
      assert (a + b)[1..] == a[1..] + b;
      SpellSplit(a[1..], b, rest);
    }
  }

  /** What is still to come of a message, read through and rendered. */
  datatype Coming = Coming(flow: Flow, text: string)

  function Reading(m: ToolMarkers, json: JsonCodec, blocks: seq<ContentBlock>): Coming {
    Coming(FlowOf(m, json, blocks), RenderText(m, json, blocks))
  }

  lemma ReadText(m: ToolMarkers, json: JsonCodec, blocks: seq<ContentBlock>)
    requires blocks != [] && !blocks[0].Image?
    ensures var next := Reading(m, json, blocks[1..]);
            Reading(m, json, blocks) == Coming(Spell(RenderBlock(m, json, blocks[0]), next.flow), RenderBlock(m, json, blocks[0]) + next.text)
  {
  }

  lemma ReadImage(m: ToolMarkers, json: JsonCodec, blocks: seq<ContentBlock>)
    requires blocks != [] && blocks[0].Image?
    ensures var next := Reading(m, json, blocks[1..]);
            Reading(m, json, blocks) == Coming(Picture(ImageUrl(blocks[0].mediaType, blocks[0].data), next.flow), next.text)
  {
    assert "" + RenderText(m, json, blocks[1..]) == RenderText(m, json, blocks[1..]);
  }

  /** The parts so far, the text being gathered and what is to come read as the whole message. */
  ghost predicate Midway(all: Coming, parts: seq<Part>, text: string, rest: Coming) {
    && PartsFlow(parts, Spell(text, rest.flow)) == all.flow
    && Grouped(parts) && (parts != [] ==> parts[|parts| - 1].InputImage?)
    && (parts == [] ==> text + rest.text == all.text)
  }

  method GatherText(ghost all: Coming, parts: seq<Part>, text: string, t: string, ghost rest: Coming) returns (text': string)
    requires Midway(all, parts, text, Coming(Spell(t, rest.flow), t + rest.text))
    ensures text' == text + t && Midway(all, parts, text', rest)
  {
    text' := text + t;
    SpellSplit(text, t, rest.flow);
    assert text + (t + rest.text) == text + t + rest.text;
  }

  method PushText(parts: seq<Part>, text: string, ghost rest: Flow) returns (parts': seq<Part>)
    requires Grouped(parts) && (parts != [] ==> parts[|parts| - 1].InputImage?)
    ensures Grouped(parts') && parts <= parts' && PartsFlow(parts', rest) == PartsFlow(parts, Spell(text, rest))
  {
    parts' := parts;
    if text != "" {
      PushPart(parts, InputText(text), rest);
      parts' := parts + [InputText(text)];
    }
  }

  method PushImage(ghost all: Coming, parts: seq<Part>, text: string, url: string, ghost rest: Coming) returns (parts': seq<Part>)
    requires Midway(all, parts, text, Coming(Picture(url, rest.flow), rest.text))
    ensures Midway(all, parts', "", rest) && parts' != []
  {
    parts' := PushText(parts, text, Picture(url, rest.flow));
    PushPart(parts', InputImage(url), rest.flow);
    parts' := parts' + [InputImage(url)];
  }

  lemma PushPart(parts: seq<Part>, p: Part, rest: Flow)
    ensures PartsFlow(parts + [p], rest) == PartsFlow(parts, PartFlow(p, rest))
  {
    assert (parts + [p])[..|parts|] == parts;
  }

  method TakeBlock(m: ToolMarkers, json: JsonCodec, ghost all: Coming, parts: seq<Part>, text: string, rest: seq<ContentBlock>)
      returns (parts': seq<Part>, text': string)
    requires rest != [] && Midway(all, parts, text, Reading(m, json, rest))
    ensures Midway(all, parts', text', Reading(m, json, rest[1..]))
    ensures parts' == [] <==> parts == [] && !rest[0].Image?
  {
    parts', text' := parts, text;
    match rest[0] {
      case Image(mediaType, data) =>
        ReadImage(m, json, rest);
        parts' := PushImage(all, parts, text, ImageUrl(mediaType, data), Reading(m, json, rest[1..]));
        text' := "";
      case b =>
        ReadText(m, json, rest);
        text' := GatherText(all, parts, text, RenderBlock(m, json, b), Reading(m, json, rest[1..]));
    }
  }

  /** What a message is sent as: nothing if it is blank; one text if it has no image; else its parts, which
      read as the message and group its text. */
  method RenderMessage(m: ToolMarkers, json: JsonCodec, blocks: seq<ContentBlock>) returns (r: Option<MessageContent>)
    ensures r.None? <==> BlankTexts(blocks)
    ensures NoImage(blocks) ==>
              r == if AllWhitespace(RenderText(m, json, blocks)) then None else Some(Plain(RenderText(m, json, blocks)))
    ensures !NoImage(blocks) ==> r.Some? && r.value.Parts?
    ensures !NoImage(blocks) ==> Grouped(r.value.parts) && PartsFlow(r.value.parts, End) == FlowOf(m, json, blocks)
  {
    var parts, text := [], "";
    var rest := blocks;
    ghost var all := Reading(m, json, blocks);
    assert "" + all.text == all.text;
    while rest != []
      invariant Midway(all, parts, text, Reading(m, json, rest))
      invariant parts != [] ==> !NoImage(blocks)
      invariant parts == [] ==> (NoImage(blocks) <==> NoImage(rest))
      decreases |rest|
    {
      assert NoImage(rest) <==> !rest[0].Image? && NoImage(rest[1..]) by { NoImageStep(rest); }
      parts, text := TakeBlock(m, json, all, parts, text, rest);
      rest := rest[1..];
    }
    r := Finish(all, parts, text);
    if NoImage(blocks) { BlankExactly(m, json, blocks); }
  }

  method Finish(ghost all: Coming, parts: seq<Part>, text: string) returns (r: Option<MessageContent>)
    requires Midway(all, parts, text, Coming(End, ""))
    ensures parts == [] ==> r == if AllWhitespace(all.text) then None else Some(Plain(all.text))
    ensures parts != [] ==> r.Some? && r.value.Parts? && Grouped(r.value.parts) && PartsFlow(r.value.parts, End) == all.flow
  {
    if parts == [] {
      assert text + "" == text;
      TrimBlank(text);
      return if Trim(text) == "" then None else Some(Plain(text));
    }
    var whole := PushText(parts, text, End);
    r := Some(Parts(whole));
  }

  lemma NoImageStep(blocks: seq<ContentBlock>)
    requires blocks != []
    ensures NoImage(blocks) <==> !blocks[0].Image? && NoImage(blocks[1..])
  {
    if !blocks[0].Image? && NoImage(blocks[1..]) {
      forall i | 0 <= i < |blocks| ensures !blocks[i].Image? { assert i > 0 ==> !blocks[1..][i - 1].Image?; }
    }
    if NoImage(blocks) {
      forall i | 0 <= i < |blocks| - 1 ensures !blocks[1..][i].Image? { assert !blocks[i + 1].Image?; }
    }
  }

  // ---------- All messages ----------

  datatype Role = User | Assistant

  datatype ConversationMessage = ConversationMessage(role: Role, content: seq<ContentBlock>)

  datatype InputMessage = InputMessage(role: string, content: MessageContent)

  function RoleName(r: Role): string {
    match r case User => "user" case Assistant => "assistant"
  }

  /** One message as another one is sent. */
  ghost predicate SentAs(m: ToolMarkers, json: JsonCodec, message: ConversationMessage, sent: InputMessage) {
    && sent.role == (if message.role.User? then "user" else "assistant")
    && if NoImage(message.content) then sent.content == Plain(RenderText(m, json, message.content))
       else sent.content.Parts? && Grouped(sent.content.parts)
            && PartsFlow(sent.content.parts, End) == FlowOf(m, json, message.content)
  }

  /** The messages that are not just blank texts, in order, each as it is sent. */
  ghost predicate AllSent(m: ToolMarkers, json: JsonCodec, messages: seq<ConversationMessage>, sent: seq<InputMessage>) {
    if messages == [] then sent == []
    else
      var front, last := messages[..|messages| - 1], messages[|messages| - 1];
      if BlankTexts(last.content) then AllSent(m, json, front, sent)
      else sent != [] && SentAs(m, json, last, sent[|sent| - 1]) && AllSent(m, json, front, sent[..|sent| - 1])
  }

  method RenderMessages(m: ToolMarkers, json: JsonCodec, messages: seq<ConversationMessage>) returns (sent: seq<InputMessage>)
    ensures AllSent(m, json, messages, sent)
  {
    sent := [];
    for i := 0 to |messages|
      invariant AllSent(m, json, messages[..i], sent)
    {
      assert messages[..i + 1][..i] == messages[..i];
      var content := RenderMessage(m, json, messages[i].content);
      if content.Some? {
        var next := InputMessage(RoleName(messages[i].role), content.value);
        assert (sent + [next])[..|sent|] == sent;
        sent := sent + [next];
      }
    }
    assert messages[..|messages|] == messages;
  }
}
