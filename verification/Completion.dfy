/** The message a completed reply becomes (crates/rust-agent/src/model_service.rs), and how it agrees with
    what was shown while the reply streamed in. */
module Completion {
  import opened Options
  import opened Strings
  import opened ToolTagFiltering
  import opened AssistantContent
  import opened Rendering
  import opened ModelStream

  datatype FinalMessage = FinalMessage(content: seq<ContentBlock>, usage: Usage, stopReason: Option<string>)

  function RawText(r: Response): string {
    if r.outputText != "" then r.outputText else if r.refusal.Some? then r.refusal.value else ""
  }

  /** The final event's message: the parsed text, or the parsed refusal when there is no text. */
  method CompleteEvent(json: JsonCodec, r: Response) returns (c: FinalMessage)
    ensures c.content == Parsed(json, RawText(r)) && c.stopReason == r.incompleteReason
    ensures c.usage == if r.usage.Some? then r.usage.value else Usage(0, 0)
  {
    var text := r.outputText;
    if text == "" {
      text := if r.refusal.Some? then r.refusal.value else "";
    }
    var content := ParseAssistantContent(json, text);
    c := FinalMessage(content, if r.usage.Some? then r.usage.value else Usage(0, 0), r.incompleteReason);
  }

  /** The response a run completes with. */
  function CompletionIn(t: Transcript): Option<Response> {
    match t
    case End => None
    case Show(_, rest) => CompletionIn(rest)
    case Signal(e, rest) => if e.Complete? then Some(e.response) else CompletionIn(rest)
  }

  /** The response of the attempt that ends the run, if it brings one. */
  function LastResponse(up: Upstream, attempt: nat): Option<Response>
    decreases MAX_RETRIES - attempt
  {
    if GoesOn(up, attempt) then LastResponse(up, attempt + 1)
    else match up(attempt)
      case Refused(_) => None
      case Streams(events) => if EndingOf(events).Finishes? then Some(EndingOf(events).response) else None
  }

  lemma {:induction false} SayCompletes(s: string, rest: Transcript)
    ensures CompletionIn(Say(s, rest)) == CompletionIn(rest)
  {
    if s != "" { SayCompletes(s[1..], rest); }
  }

  lemma AttemptCompletes(m: Markers, up: Upstream, clock: nat -> int, attempt: nat, events: seq<UpstreamEvent>, fed: string)
    requires attempt <= MAX_RETRIES && up(attempt) == Streams(events)
    requires var fed' := Fed(fed, Streamed(events));
             GoesOn(up, attempt) ==> CompletionIn(Plan(m, up, clock, attempt + 1, fed')) == LastResponse(up, attempt + 1)
    ensures CompletionIn(Plan(m, up, clock, attempt, fed)) == LastResponse(up, attempt)
  {
    var fed' := Fed(fed, Streamed(events));
    var t := AfterAttempt(m, up, clock, attempt, events, fed');
    assert CompletionIn(t) == LastResponse(up, attempt) by {
      if EndingOf(events).Finishes? {
        SayCompletes(Scan(m, false, fed').Flush(), Signal(Complete(EndingOf(events).response), End));
      }
    }
    AttemptPlan(m, up, clock, attempt, events, fed);
    SayCompletes(DropFirst(ModelStream.Shown(m, fed'), |ModelStream.Shown(m, fed)|), t);
  }

  /** A run completes with the response of its last attempt, or not at all. */
  lemma {:induction false} RunCompletes(m: Markers, up: Upstream, clock: nat -> int, attempt: nat, fed: string)
    requires attempt <= MAX_RETRIES
    ensures CompletionIn(Plan(m, up, clock, attempt, fed)) == LastResponse(up, attempt)
    ensures LastResponse(up, attempt).Some? <==> Completes(up, attempt)
    decreases MAX_RETRIES - attempt
  {
    match up(attempt)
    case Refused(_) =>
      if GoesOn(up, attempt) { RunCompletes(m, up, clock, attempt + 1, fed); }
    case Streams(events) =>
      if GoesOn(up, attempt) { RunCompletes(m, up, clock, attempt + 1, Fed(fed, Streamed(events))); }
      AttemptCompletes(m, up, clock, attempt, events, fed);
  }

  /** From the model to the user: when a written list of blocks is streamed, however often it breaks off on
      the way, and completed with its text, what is shown is its texts and the line breaks around its tool
      blocks, and the message is the blocks, but for names that ids ending in `name=` hide. */
  lemma ShownAndRead(m: ToolMarkers, json: JsonCodec, up: Upstream, clock: nat -> int, blocks: seq<ContentBlock>, text: string)
    requires Lawful(json) && Renderable(m, json, blocks) && text == RenderText(m, json, blocks)
    requires var texts := TextsFrom(up, 0);
             texts[|texts| - 1] == text && forall q | 0 <= q < |texts| :: Begins(text, texts[q])
    requires LastResponse(up, 0).Some? && RawText(LastResponse(up, 0).value) == text
    ensures var run := Plan(m, up, clock, 0, "");
            && SaidIn(run) == ShownText(blocks)
            && CompletionIn(run).Some? && RawText(CompletionIn(run).value) == text
            && Blocks(ParsePieces(m, ReaderOf(json), text, 0)) == RereadAll(blocks)
  {
    ShownAndCompleted(m, up, clock, text);
    ShowWhole(m, json, blocks);
    RoundTripFor(m, json, blocks);
  }

  lemma ShownAndCompleted(m: Markers, up: Upstream, clock: nat -> int, text: string)
    requires var texts := TextsFrom(up, 0);
             texts[|texts| - 1] == text && forall q | 0 <= q < |texts| :: Begins(text, texts[q])
    requires LastResponse(up, 0).Some?
    ensures var run := Plan(m, up, clock, 0, "");
            SaidIn(run) == Visible(m, text) && CompletionIn(run) == LastResponse(up, 0)
  {
    RunCompletes(m, up, clock, 0, "");
    CompletedReply(m, up, clock, text);
  }
}
