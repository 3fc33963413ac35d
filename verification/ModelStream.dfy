/** The retry loop over a model's reply stream (crates/rust-agent/src/model_service.rs): a broken stream is
    asked for again, and what the earlier attempts delivered is skipped by count while one filter goes on.
    The upstream is a function from the number of the attempt to what that attempt brings. */
module ModelStream {
  import opened Options
  import opened Strings
  import opened ToolTagFiltering

  const MAX_RETRIES: nat := 3
  const BASE_DELAY_SECS: real := 1.0
  const MAX_DELAY_SECS: real := 30.0
  const RETRYABLE_STATUS_CODES: set<nat> := {429, 500, 502, 503, 529}
  const NON_RETRYABLE_STREAM_CODES: set<string> := {
    "bad_request", "unauthorized", "forbidden", "not_found", "conflict",
    "validation_error", "insufficient_balance", "no_active_plan", "upstream_rejected"
  }

  datatype Usage = Usage(inputTokens: nat, outputTokens: nat)

  /** What a completed response holds: its text, the refusal it may have instead, and how it ended. */
  datatype Response = Response(outputText: string, refusal: Option<string>, usage: Option<Usage>, incompleteReason: Option<string>)

  datatype ErrorKind = Network | RateLimited | ServerError(status: nat) | Api(status: nat) | OtherError

  datatype ClientError = ClientError(kind: ErrorKind, shown: string)

  datatype UpstreamEvent =
    | OutputTextDelta(delta: string)
    | RefusalDelta(delta: string)
    | Completed(response: Response)
    | Incomplete(response: Response)
    | Failed(error: Option<StreamError>)
    | Error(report: StreamError)
    | Broken(cause: ClientError)
    | Other

  datatype StreamError = StreamError(code: string, message: string)

  datatype Attempt = Refused(error: ClientError) | Streams(events: seq<UpstreamEvent>)

  type Upstream = nat -> Attempt

  datatype ModelStreamEvent =
    | TextDelta(text: string)
    | Complete(response: Response)
    | Retry(message: string, attempt: nat, maxAttempts: nat, delaySecs: real)

  predicate IsRetryable(e: ClientError) {
    match e.kind
    case Network => true
    case RateLimited => true
    case ServerError(status) => status in RETRYABLE_STATUS_CODES
    case Api(status) => status in RETRYABLE_STATUS_CODES
    case OtherError => false
  }

  function Power(k: nat): real {
    if k == 0 then 1.0 else 2.0 * Power(k - 1)
  }

  function Fraction(n: int): (r: real)
    ensures 0.0 <= r < 1.0
  {
    (n % 1000) as real / 1000.0
  }

  /** Exponential backoff, and up to a quarter more by the clock's milliseconds. */
  function RetryDelay(attempt: nat, now: int): real {
    var full := BASE_DELAY_SECS * Power(attempt);
    var delay := if full <= MAX_DELAY_SECS then full else MAX_DELAY_SECS;
    delay + Fraction(now) * delay * 0.25
  }

  function RetryEvent(message: string, attempt: nat, now: int): ModelStreamEvent {
    Retry(message, attempt + 1, MAX_RETRIES + 1, RetryDelay(attempt, now))
  }

  /** A final failure has no event of its own: it is a retry numbered as the last attempt. */
  function TerminalFailure(message: string): ModelStreamEvent {
    Retry(message, MAX_RETRIES + 1, MAX_RETRIES + 1, 0.0)
  }

  // ---------- What one attempt brings ----------

  datatype Ending = Finishes(response: Response) | Stops(message: string) | Breaks(message: string)

  function Coded(e: StreamError): string {
    "[" + e.code + "] " + e.message
  }

  function FailureEnding(e: StreamError): Ending {
    if e.code in NON_RETRYABLE_STREAM_CODES then Stops("request failed: " + Coded(e)) else Breaks(Coded(e))
  }

  /** How an event ends the stream, if it does. */
  function EndingAt(e: UpstreamEvent): Option<Ending> {
    match e
    case Completed(response) => Some(Finishes(response))
    case Incomplete(response) => Some(Finishes(response))
    case Failed(None) => Some(Breaks("AI provider stream failed"))
    case Failed(Some(error)) => Some(FailureEnding(error))
    case Error(report) => Some(FailureEnding(report))
    case Broken(cause) => Some(if IsRetryable(cause) then Breaks(cause.shown) else Stops("request failed: " + cause.shown))
    case _ => None
  }

  function EndingOf(events: seq<UpstreamEvent>): Ending {
    if events == [] then Breaks("stream closed without a terminal event")
    else match EndingAt(events[0])
      case Some(ending) => ending
      case None => EndingOf(events[1..])
  }

  function TextAt(e: UpstreamEvent): string {
    if e.OutputTextDelta? || e.RefusalDelta? then e.delta else ""
  }

  /** The text an attempt streams before it ends. */
  function Streamed(events: seq<UpstreamEvent>): string {
    if events == [] || EndingAt(events[0]).Some? then "" else TextAt(events[0]) + Streamed(events[1..])
  }

  /** What has been fed to the filter after an attempt: only the characters past all earlier ones are new. */
  function Fed(fed: string, text: string): (r: string)
    ensures |fed| <= |r| && |text| <= |r| && (|r| == |fed| || |r| == |text|)
    ensures forall i | 0 <= i < |r| :: r[i] == if i < |fed| then fed[i] else text[i]
  {
    if |text| <= |fed| then fed else fed + text[|fed|..]
  }

  // ---------- What a run shows ----------

  /** A run as a reader sees it: visible characters and signals, whatever the pieces they come in. */
  datatype Transcript = End | Show(c: char, rest: Transcript) | Signal(event: ModelStreamEvent, rest: Transcript)

  function Say(s: string, rest: Transcript): Transcript {
    if s == "" then rest else Show(s[0], Say(s[1..], rest))
  }

  function Mark(e: ModelStreamEvent, rest: Transcript): Transcript {
    if e.TextDelta? then Say(e.text, rest) else Signal(e, rest)
  }

  /** The events so far and then the rest. */
  function After(out: seq<ModelStreamEvent>, rest: Transcript): Transcript {
    if out == [] then rest else After(out[..|out| - 1], Mark(out[|out| - 1], rest))
  }

  function Shown(m: Markers, fed: string): string {
    Scan(m, false, fed).visible
  }

  function DropFirst(s: string, n: nat): string {
    if n <= |s| then s[n..] else ""
  }

  /** The whole run from an attempt on, when `fed` has gone through the filter before. */
  function Plan(m: Markers, up: Upstream, clock: nat -> int, attempt: nat, fed: string): Transcript
    requires attempt <= MAX_RETRIES
    decreases MAX_RETRIES - attempt
  {
    match up(attempt)
    case Refused(error) =>
      if attempt >= MAX_RETRIES || !IsRetryable(error) then
        Signal(TerminalFailure("request failed: " + error.shown), End)
      else
        Signal(RetryEvent(error.shown, attempt, clock(attempt)), Plan(m, up, clock, attempt + 1, fed))
    case Streams(events) =>
      var fed' := Fed(fed, Streamed(events));
      var before := |Shown(m, fed)|;
      match EndingOf(events)
      case Finishes(response) => Say(DropFirst(Visible(m, fed'), before), Signal(Complete(response), End))
      case Stops(message) => Say(DropFirst(Shown(m, fed'), before), Signal(TerminalFailure(message), End))
      case Breaks(message) =>
        Say(DropFirst(Shown(m, fed'), before),
            if attempt >= MAX_RETRIES then Signal(TerminalFailure("retries exhausted: " + message), End)
            else Signal(RetryEvent(message, attempt, clock(attempt)), Plan(m, up, clock, attempt + 1, fed')))
  }

  // ---------- The loop ----------

  ghost predicate GateAt(gate: ToolTagFilter, fed: string)
    reads gate
  {
    gate.inTag == Scan(gate.markers, false, fed).inTag && gate.carry == Scan(gate.markers, false, fed).carry
  }

  ghost predicate NoEmptyText(out: seq<ModelStreamEvent>) {
    forall i | 0 <= i < |out| :: out[i].TextDelta? ==> out[i].text != ""
  }

  /** With these events out, the whole run will read as `goal` once `rest` has followed. */
  ghost predicate Leads(out: seq<ModelStreamEvent>, rest: Transcript, goal: Transcript) {
    After(out, rest) == goal
  }

  method Yield(out: seq<ModelStreamEvent>, e: ModelStreamEvent, ghost rest: Transcript, ghost goal: Transcript)
      returns (r: seq<ModelStreamEvent>)
    requires NoEmptyText(out) && (e.TextDelta? ==> e.text != "") && Leads(out, Mark(e, rest), goal)
    ensures NoEmptyText(r) && Leads(r, rest, goal) && r == out + [e]
  {
    r := out + [e];
    assert r[..|out|] == out;
  }

  method YieldText(out: seq<ModelStreamEvent>, text: string, ghost rest: Transcript, ghost goal: Transcript)
      returns (r: seq<ModelStreamEvent>)
    requires NoEmptyText(out) && Leads(out, Say(text, rest), goal)
    ensures NoEmptyText(r) && Leads(r, rest, goal)
  {
    r := out;
    if text != "" {
      r := Yield(out, TextDelta(text), rest, goal);
    }
  }

  /** What an attempt still shows when the filter has been fed `now` of all that it will be fed. */
  ghost function Coming(m: Markers, now: string, fed': string, rest: Transcript): Transcript {
    Say(DropFirst(Shown(m, fed'), |Shown(m, now)|), rest)
  }

  /** Midway through an attempt: `n` characters of all that will be fed have gone through the filter. */
  ghost predicate Midway(gate: ToolTagFilter, fed': string, n: nat, out: seq<ModelStreamEvent>, rest: Transcript, goal: Transcript)
    reads gate
  {
    && n <= |fed'| && GateAt(gate, fed'[..n]) && NoEmptyText(out)
    && Leads(out, Coming(gate.markers, fed'[..n], fed', rest), goal)
  }

  /** Passes on one piece, without the characters already delivered. */
  method PassDelta(gate: ToolTagFilter, delta: string, rawSeen: nat, emitted: nat, out: seq<ModelStreamEvent>,
                   ghost fed: string, ghost text: string, ghost rest: Transcript, ghost goal: Transcript)
      returns (out': seq<ModelStreamEvent>, emitted': nat)
    requires |fed| <= emitted && rawSeen <= emitted && HasAt(text, rawSeen, delta)
    requires Midway(gate, Fed(fed, text), emitted, out, rest, goal)
    modifies gate
    ensures emitted' == if emitted < rawSeen + |delta| then rawSeen + |delta| else emitted
    ensures Midway(gate, Fed(fed, text), emitted', out', rest, goal)
  {
    ghost var fed' := Fed(fed, text);
    var start := emitted - rawSeen;
    out', emitted' := out, emitted;
    if start < |delta| {
      var added := delta[start..];
      ghost var now := fed'[..emitted];
      AddedText(fed, text, emitted, rawSeen, delta);
      emitted' := rawSeen + |delta|;
      FeedMore(gate.markers, now, added, fed', rest);
      var visible := gate.Push(added);
      out' := YieldText(out, visible, Coming(gate.markers, now + added, fed', rest), goal);
    }
  }

  ghost predicate HasAt(text: string, at: nat, piece: string) {
    at + |piece| <= |text| && text[at..at + |piece|] == piece
  }

  /** These events stream the text from `seen` on, and then end so. */
  ghost predicate Streaming(left: seq<UpstreamEvent>, text: string, seen: nat, ending: Ending) {
    seen <= |text| && Streamed(left) == text[seen..] && EndingOf(left) == ending
  }

  lemma StreamOn(left: seq<UpstreamEvent>, text: string, seen: nat, ending: Ending)
    requires Streaming(left, text, seen, ending) && left != [] && EndingAt(left[0]).None?
    ensures HasAt(text, seen, TextAt(left[0]))
    ensures Streaming(left[1..], text, seen + |TextAt(left[0])|, ending)
  {
    NextDelta(text, seen, TextAt(left[0]), Streamed(left[1..]));
  }

  lemma StreamEnds(left: seq<UpstreamEvent>, text: string, seen: nat, ending: Ending)
    requires Streaming(left, text, seen, ending) && (left != [] ==> EndingAt(left[0]).Some?)
    ensures seen == |text|
    ensures ending == if left != [] then EndingAt(left[0]).value else Breaks("stream closed without a terminal event")
  {
    assert |text[seen..]| == 0;
  }

  lemma NothingComing(m: Markers, fed': string, rest: Transcript)
    ensures Coming(m, fed', fed', rest) == rest
  {
  }

  /** Before an attempt nothing of it has been fed; after it, all. */
  lemma MidwayAtTheEnds(gate: ToolTagFilter, fed: string, fed': string, out: seq<ModelStreamEvent>,
                        rest: Transcript, goal: Transcript)
    requires |fed| <= |fed'| && fed'[..|fed|] == fed
    ensures GateAt(gate, fed) && NoEmptyText(out) && Leads(out, Coming(gate.markers, fed, fed', rest), goal)
        <==> Midway(gate, fed', |fed|, out, rest, goal)
    ensures Midway(gate, fed', |fed'|, out, rest, goal) ==> GateAt(gate, fed') && NoEmptyText(out) && Leads(out, rest, goal)
  {
    assert fed'[..|fed'|] == fed';
    NothingComing(gate.markers, fed', rest);
  }

  /** Passes an attempt's text through the filter. */
  method Forward(gate: ToolTagFilter, events: seq<UpstreamEvent>, emitted: nat, out: seq<ModelStreamEvent>,
                 ghost fed: string, ghost rest: Transcript, ghost goal: Transcript)
      returns (out': seq<ModelStreamEvent>, emitted': nat, ending: Ending)
    requires GateAt(gate, fed) && emitted == |fed| && NoEmptyText(out)
    requires Leads(out, Coming(gate.markers, fed, Fed(fed, Streamed(events)), rest), goal)
    modifies gate
    ensures GateAt(gate, Fed(fed, Streamed(events))) && emitted' == |Fed(fed, Streamed(events))|
    ensures NoEmptyText(out') && Leads(out', rest, goal)
    ensures ending == EndingOf(events)
  {
    ghost var text, fed' := Streamed(events), Fed(fed, Streamed(events));
    assert fed'[..|fed|] == fed;
    MidwayAtTheEnds(gate, fed, fed', out, rest, goal);
    out', emitted', ending := PassEvents(gate, events, emitted, out, fed, text, rest, goal);
    MidwayAtTheEnds(gate, fed, fed', out', rest, goal);
  }

  method PassEvent(gate: ToolTagFilter, e: UpstreamEvent, rawSeen: nat, emitted: nat, out: seq<ModelStreamEvent>,
                   ghost fed: string, ghost text: string, ghost rest: Transcript, ghost goal: Transcript)
      returns (out': seq<ModelStreamEvent>, emitted': nat, rawSeen': nat)
    requires |fed| <= emitted && rawSeen <= emitted && HasAt(text, rawSeen, TextAt(e))
    requires Midway(gate, Fed(fed, text), emitted, out, rest, goal)
    modifies gate
    ensures rawSeen' == rawSeen + |TextAt(e)| <= emitted' && emitted <= emitted'
    ensures emitted' == emitted || emitted' == rawSeen'
    ensures Midway(gate, Fed(fed, text), emitted', out', rest, goal)
  {
    out', emitted', rawSeen' := out, emitted, rawSeen;
    if e.OutputTextDelta? || e.RefusalDelta? {
      out', emitted' := PassDelta(gate, e.delta, rawSeen, emitted, out, fed, text, rest, goal);
      rawSeen' := rawSeen + |e.delta|;
    }
  }

  method PassNext(gate: ToolTagFilter, left: seq<UpstreamEvent>, rawSeen: nat, emitted: nat, out: seq<ModelStreamEvent>,
                  ghost fed: string, ghost text: string, ghost ending: Ending, ghost rest: Transcript, ghost goal: Transcript)
      returns (out': seq<ModelStreamEvent>, emitted': nat, rawSeen': nat)
    requires Streaming(left, text, rawSeen, ending) && left != [] && EndingAt(left[0]).None?
    requires |fed| <= emitted && rawSeen <= emitted && Midway(gate, Fed(fed, text), emitted, out, rest, goal)
    modifies gate
    ensures Streaming(left[1..], text, rawSeen', ending) && rawSeen' <= emitted' && emitted <= emitted'
    ensures Midway(gate, Fed(fed, text), emitted', out', rest, goal)
  {
    StreamOn(left, text, rawSeen, ending);
    out', emitted', rawSeen' := PassEvent(gate, left[0], rawSeen, emitted, out, fed, text, rest, goal);
  }

  method PassEvents(gate: ToolTagFilter, events: seq<UpstreamEvent>, emitted: nat, out: seq<ModelStreamEvent>,
                    ghost fed: string, ghost text: string, ghost rest: Transcript, ghost goal: Transcript)
      returns (out': seq<ModelStreamEvent>, emitted': nat, ending: Ending)
    requires text == Streamed(events) && emitted == |fed| && Midway(gate, Fed(fed, text), emitted, out, rest, goal)
    modifies gate
    ensures emitted' == |Fed(fed, text)| && Midway(gate, Fed(fed, text), emitted', out', rest, goal)
    ensures ending == EndingOf(events)
  {
    out', emitted' := out, emitted;
    var rawSeen: nat, left := 0, events;
    assert Streaming(left, text, 0, EndingOf(events)) by { assert text[0..] == text; }
    while left != [] && EndingAt(left[0]).None?
      invariant Streaming(left, text, rawSeen, EndingOf(events)) && rawSeen <= emitted' && emitted <= emitted'
      invariant Midway(gate, Fed(fed, text), emitted', out', rest, goal)
      decreases |left|
    {
      out', emitted', rawSeen := PassNext(gate, left, rawSeen, emitted', out', fed, text, EndingOf(events), rest, goal);
      left := left[1..];
    }
    StreamEnds(left, text, rawSeen, EndingOf(events));
    ending := if left != [] then EndingAt(left[0]).value else Breaks("stream closed without a terminal event");
  }

  lemma NextDelta(text: string, seen: nat, delta: string, more: string)
    requires seen <= |text| && text[seen..] == delta + more
    ensures seen + |delta| <= |text| && text[seen..seen + |delta|] == delta && text[seen + |delta|..] == more
  {
    assert text[seen..][..|delta|] == delta && text[seen..][|delta|..] == more;
    assert text[seen..][..|delta|] == text[seen..seen + |delta|];
  }

  /** The part of a piece past what was delivered is what comes next. */
  lemma AddedText(fed: string, text: string, now: nat, seen: nat, delta: string)
    requires |fed| <= now && seen <= now < seen + |delta| <= |text| && text[seen..seen + |delta|] == delta
    requires now <= |Fed(fed, text)|
    ensures seen + |delta| <= |Fed(fed, text)|
    ensures Fed(fed, text)[..seen + |delta|] == Fed(fed, text)[..now] + delta[now - seen..]
  {
    var r := Fed(fed, text);
    assert forall k | now <= k < seen + |delta| :: r[k] == text[k] == text[seen..seen + |delta|][k - seen];
  }

  lemma {:induction false} SaySplit(a: string, b: string, rest: Transcript)
    ensures Say(a + b, rest) == Say(a, Say(b, rest))
  {
    if a == "" {
      assert a + b == b;
    } else {
      assert (a + b)[1..] == a[1..] + b;
      SaySplit(a[1..], b, rest);
    }
  }

  lemma {:induction false} ShownGrows(m: Markers, a: string, b: string)
    ensures Shown(m, a + b) == Shown(m, a) + Scan(m, Scan(m, false, a).inTag, Scan(m, false, a).carry + b).visible
    ensures Scan(m, false, a + b).inTag == Scan(m, Scan(m, false, a).inTag, Scan(m, false, a).carry + b).inTag
    ensures Scan(m, false, a + b).carry == Scan(m, Scan(m, false, a).inTag, Scan(m, false, a).carry + b).carry
  {
    ScanResumes(m, false, a, b);
  }

  lemma DropSum(a: string, b: string, c: string)
    ensures DropFirst(a + b + c, |a|) == b + DropFirst(a + b + c, |a + b|)
  {
    assert a + b + c == a + (b + c) && DropFirst(a + (b + c), |a|) == b + c;
    assert DropFirst(a + b + c, |a + b|) == c;
  }

  lemma FeedMore(m: Markers, now: string, added: string, fed': string, rest: Transcript)
    requires |now + added| <= |fed'| && fed'[..|now + added|] == now + added
    ensures var r := Scan(m, Scan(m, false, now).inTag, Scan(m, false, now).carry + added);
            && Coming(m, now, fed', rest) == Say(r.visible, Coming(m, now + added, fed', rest))
            && Scan(m, false, now + added).inTag == r.inTag && Scan(m, false, now + added).carry == r.carry
  {
    var more := fed'[|now + added|..];
    assert fed' == now + added + more;
    ShownGrows(m, now, added);
    ShownGrows(m, now + added, more);
    var a, b := Shown(m, now), Scan(m, Scan(m, false, now).inTag, Scan(m, false, now).carry + added).visible;
    DropSum(a, b, Scan(m, Scan(m, false, now + added).inTag, Scan(m, false, now + added).carry + more).visible);
    SaySplit(b, DropFirst(Shown(m, fed'), |a + b|), rest);
  }

  /** Completing a reply shows what the filter has passed of it and then what the filter still held. */
  lemma FinishSplit(m: Markers, fed: string, fed': string, rest: Transcript)
    requires |fed| <= |fed'| && fed'[..|fed|] == fed
    ensures Say(DropFirst(Visible(m, fed'), |Shown(m, fed)|), rest)
         == Coming(m, fed, fed', Say(Scan(m, false, fed').Flush(), rest))
  {
    var held := Scan(m, false, fed').Flush();
    ScanThenFlush(m, false, fed');
    assert fed' == fed + fed'[|fed|..];
    ShownGrows(m, fed, fed'[|fed|..]);
    assert DropFirst(Shown(m, fed') + held, |Shown(m, fed)|) == DropFirst(Shown(m, fed'), |Shown(m, fed)|) + held;
    SaySplit(DropFirst(Shown(m, fed'), |Shown(m, fed)|), held, rest);
  }

  /** The stream a caller gets: its events are the plan of the run, and no text event is empty. */
  method StreamResponse(up: Upstream, clock: nat -> int) returns (out: seq<ModelStreamEvent>)
    ensures After(out, End) == Plan(TOOL_USE, up, clock, 0, "")
    ensures NoEmptyText(out)
  {
    var gate := new ToolTagFilter();
    out := StreamThrough(gate, up, clock, Plan(gate.markers, up, clock, 0, ""));
  }

  /** The attempt loop, with a filter that has seen nothing yet. */
  method StreamThrough(gate: ToolTagFilter, up: Upstream, clock: nat -> int, ghost goal: Transcript)
      returns (out: seq<ModelStreamEvent>)
    requires GateAt(gate, "") && goal == Plan(gate.markers, up, clock, 0, "")
    modifies gate
    ensures Leads(out, End, goal) && NoEmptyText(out)
  {
    var emittedRawChars := 0;
    var attempt := 0;
    var again := true;
    ghost var fed := "";
    out := [];
    while again
      invariant NoEmptyText(out) && (!again ==> Leads(out, End, goal))
      invariant again ==> attempt <= MAX_RETRIES && GateAt(gate, fed) && emittedRawChars == |fed|
      invariant again ==> Leads(out, Plan(gate.markers, up, clock, attempt, fed), goal)
      decreases again, MAX_RETRIES - attempt
    {
      out, emittedRawChars, again, fed := TryAttempt(gate, up, clock, attempt, emittedRawChars, out, fed, goal);
      attempt := attempt + 1;
    }
  }

  method TryAttempt(gate: ToolTagFilter, up: Upstream, clock: nat -> int, attempt: nat, emitted: nat,
                    out: seq<ModelStreamEvent>, ghost fed: string, ghost goal: Transcript)
      returns (out': seq<ModelStreamEvent>, emitted': nat, again: bool, ghost fed': string)
    requires attempt <= MAX_RETRIES && GateAt(gate, fed) && emitted == |fed| && NoEmptyText(out)
    requires Leads(out, Plan(gate.markers, up, clock, attempt, fed), goal)
    modifies gate
    ensures NoEmptyText(out') && again == GoesOn(up, attempt)
    ensures again ==> GateAt(gate, fed') && emitted' == |fed'|
    ensures again ==> Leads(out', Plan(gate.markers, up, clock, attempt + 1, fed'), goal)
    ensures !again ==> Leads(out', End, goal)
  {
    match up(attempt) {
      case Refused(error) =>
        out', again := RefusedAttempt(gate.markers, up, clock, attempt, error, out, fed, goal);
        emitted', fed' := emitted, fed;
      case Streams(events) =>
        out', emitted', again := StreamAttempt(gate, up, clock, attempt, events, emitted, out, fed, goal);
        fed' := Fed(fed, Streamed(events));
    }
  }

  /** One attempt that could not connect. */
  method RefusedAttempt(ghost m: Markers, up: Upstream, clock: nat -> int, attempt: nat, error: ClientError,
                        out: seq<ModelStreamEvent>, ghost fed: string, ghost goal: Transcript)
      returns (out': seq<ModelStreamEvent>, again: bool)
    requires attempt <= MAX_RETRIES && up(attempt) == Refused(error) && NoEmptyText(out)
    requires Leads(out, Plan(m, up, clock, attempt, fed), goal)
    ensures NoEmptyText(out') && again == GoesOn(up, attempt)
    ensures if again then Leads(out', Plan(m, up, clock, attempt + 1, fed), goal) else Leads(out', End, goal)
  {
    if attempt >= MAX_RETRIES || !IsRetryable(error) {
      out' := Yield(out, TerminalFailure("request failed: " + error.shown), End, goal);
      return out', false;
    }
    out' := Yield(out, RetryEvent(error.shown, attempt, clock(attempt)), Plan(m, up, clock, attempt + 1, fed), goal);
    again := true;
  }

  /** One attempt that got a stream, to its end: whether another is to follow. */
  method StreamAttempt(gate: ToolTagFilter, up: Upstream, clock: nat -> int, attempt: nat, events: seq<UpstreamEvent>,
                       emitted: nat, out: seq<ModelStreamEvent>, ghost fed: string, ghost goal: Transcript)
      returns (out': seq<ModelStreamEvent>, emitted': nat, again: bool)
    requires attempt <= MAX_RETRIES && up(attempt) == Streams(events)
    requires GateAt(gate, fed) && emitted == |fed| && NoEmptyText(out)
    requires Leads(out, Plan(gate.markers, up, clock, attempt, fed), goal)
    modifies gate
    ensures NoEmptyText(out') && again == GoesOn(up, attempt)
    ensures again ==> GateAt(gate, Fed(fed, Streamed(events))) && emitted' == |Fed(fed, Streamed(events))|
    ensures again ==> Leads(out', Plan(gate.markers, up, clock, attempt + 1, Fed(fed, Streamed(events))), goal)
    ensures !again ==> Leads(out', End, goal)
  {
    ghost var fed' := Fed(fed, Streamed(events));
    AttemptPlan(gate.markers, up, clock, attempt, events, fed);
    var ending;
    out', emitted', ending := Forward(gate, events, emitted, out, fed,
                                      AfterAttempt(gate.markers, up, clock, attempt, events, fed'), goal);
    again := false;
    match ending {
      case Finishes(response) =>
        var trailing := gate.Flush();
        out' := YieldText(out', trailing, Signal(Complete(response), End), goal);
        out' := Yield(out', Complete(response), End, goal);
      case Stops(message) =>
        out' := Yield(out', TerminalFailure(message), End, goal);
      case Breaks(message) =>
        if attempt >= MAX_RETRIES {
          out' := Yield(out', TerminalFailure("retries exhausted: " + message), End, goal);
        } else {
          out' := Yield(out', RetryEvent(message, attempt, clock(attempt)),
                        Plan(gate.markers, up, clock, attempt + 1, fed'), goal);
          again := true;
        }
    }
  }

  /** What follows the text of an attempt. */
  ghost function AfterAttempt(m: Markers, up: Upstream, clock: nat -> int, attempt: nat,
                              events: seq<UpstreamEvent>, fed': string): Transcript
    requires attempt <= MAX_RETRIES
  {
    match EndingOf(events)
    case Finishes(response) => Say(Scan(m, false, fed').Flush(), Signal(Complete(response), End))
    case Stops(message) => Signal(TerminalFailure(message), End)
    case Breaks(message) =>
      if attempt >= MAX_RETRIES then Signal(TerminalFailure("retries exhausted: " + message), End)
      else Signal(RetryEvent(message, attempt, clock(attempt)), Plan(m, up, clock, attempt + 1, fed'))
  }

  lemma AttemptPlan(m: Markers, up: Upstream, clock: nat -> int, attempt: nat, events: seq<UpstreamEvent>, fed: string)
    requires attempt <= MAX_RETRIES && up(attempt) == Streams(events)
    ensures var fed' := Fed(fed, Streamed(events));
            Plan(m, up, clock, attempt, fed) == Coming(m, fed, fed', AfterAttempt(m, up, clock, attempt, events, fed'))
  {
    var fed' := Fed(fed, Streamed(events));
    if EndingOf(events).Finishes? {
      assert fed'[..|fed|] == fed;
      FinishSplit(m, fed, fed', Signal(Complete(EndingOf(events).response), End));
    }
  }

  // ---------- What is shown, over every run ----------

  function SaidIn(t: Transcript): string {
    match t
    case End => ""
    case Show(c, rest) => [c] + SaidIn(rest)
    case Signal(_, rest) => SaidIn(rest)
  }

  /** Whether the run from an attempt on goes on to another attempt. */
  predicate GoesOn(up: Upstream, attempt: nat) {
    attempt < MAX_RETRIES && match up(attempt)
      case Refused(error) => IsRetryable(error)
      case Streams(events) => EndingOf(events).Breaks?
  }

  function TextOf(a: Attempt): string {
    match a
    case Refused(_) => ""
    case Streams(events) => Streamed(events)
  }

  /** The texts of the attempts that are made. */
  function TextsFrom(up: Upstream, attempt: nat): (texts: seq<string>)
    ensures texts != []
    decreases MAX_RETRIES - attempt
  {
    [TextOf(up(attempt))] + if GoesOn(up, attempt) then TextsFrom(up, attempt + 1) else []
  }

  predicate Completes(up: Upstream, attempt: nat)
    decreases MAX_RETRIES - attempt
  {
    if GoesOn(up, attempt) then Completes(up, attempt + 1)
    else up(attempt).Streams? && EndingOf(up(attempt).events).Finishes?
  }

  /** All that reaches the filter: each text adds what lies past everything before it. */
  function Overlay(fed: string, texts: seq<string>): (r: string)
    ensures |fed| <= |r| && r[..|fed|] == fed
    decreases |texts|
  {
    if texts == [] then fed else Overlay(Fed(fed, texts[0]), texts[1..])
  }

  lemma {:induction false} SaidSay(s: string, rest: Transcript)
    ensures SaidIn(Say(s, rest)) == s + SaidIn(rest)
  {
    if s == "" {
      assert s + SaidIn(rest) == SaidIn(rest);
    } else {
      SaidSay(s[1..], rest);
      assert [s[0]] + (s[1..] + SaidIn(rest)) == s + SaidIn(rest);
    }
  }

  lemma ShownPrefix(m: Markers, fed: string, fed': string)
    requires |fed| <= |fed'| && fed'[..|fed|] == fed
    ensures Shown(m, fed) + DropFirst(Shown(m, fed'), |Shown(m, fed)|) == Shown(m, fed')
    ensures Shown(m, fed) + DropFirst(Visible(m, fed'), |Shown(m, fed)|) == Visible(m, fed')
  {
    assert fed' == fed + fed'[|fed|..];
    ShownGrows(m, fed, fed'[|fed|..]);
    ScanThenFlush(m, false, fed');
    assert |Shown(m, fed)| <= |Shown(m, fed')| && Visible(m, fed') == Shown(m, fed') + Scan(m, false, fed').Flush();
  }

  /** A run that completes shows the finished form of all that was fed; any other shows what was decided. */
  ghost predicate RunShows(m: Markers, up: Upstream, clock: nat -> int, attempt: nat, fed: string)
    requires attempt <= MAX_RETRIES
  {
    var all := Overlay(fed, TextsFrom(up, attempt));
    Shown(m, fed) + SaidIn(Plan(m, up, clock, attempt, fed)) == if Completes(up, attempt) then Visible(m, all) else Shown(m, all)
  }

  lemma LastAttemptShows(m: Markers, up: Upstream, clock: nat -> int, attempt: nat, fed: string)
    requires attempt <= MAX_RETRIES && !GoesOn(up, attempt)
    ensures RunShows(m, up, clock, attempt, fed)
  {
    var fed' := Fed(fed, TextOf(up(attempt)));
    assert Overlay(fed, TextsFrom(up, attempt)) == fed';
    match up(attempt) {
      case Refused(_) => assert Shown(m, fed) + "" == Shown(m, fed);
      case Streams(events) =>
        assert fed'[..|fed|] == fed;
        ShownPrefix(m, fed, fed');
        if Completes(up, attempt) {
          var t := Signal(Complete(EndingOf(events).response), End);
          SaidSay(DropFirst(Visible(m, fed'), |Shown(m, fed)|), t);
          assert DropFirst(Visible(m, fed'), |Shown(m, fed)|) + "" == DropFirst(Visible(m, fed'), |Shown(m, fed)|);
        } else {
          var t := AfterAttempt(m, up, clock, attempt, events, fed');
          SaidSay(DropFirst(Shown(m, fed'), |Shown(m, fed)|), t);
          assert DropFirst(Shown(m, fed'), |Shown(m, fed)|) + "" == DropFirst(Shown(m, fed'), |Shown(m, fed)|);
        }
    }
  }

  lemma OverlayNext(up: Upstream, attempt: nat, fed: string)
    requires GoesOn(up, attempt)
    ensures Overlay(fed, TextsFrom(up, attempt)) == Overlay(Fed(fed, TextOf(up(attempt))), TextsFrom(up, attempt + 1))
    ensures Completes(up, attempt) == Completes(up, attempt + 1)
  {
    assert TextsFrom(up, attempt)[1..] == TextsFrom(up, attempt + 1);
  }

  lemma {:induction false} SaidNext(m: Markers, up: Upstream, clock: nat -> int, attempt: nat, fed: string)
    requires attempt < MAX_RETRIES && GoesOn(up, attempt)
    ensures var fed' := Fed(fed, TextOf(up(attempt)));
            Shown(m, fed) + SaidIn(Plan(m, up, clock, attempt, fed)) ==
            Shown(m, fed') + SaidIn(Plan(m, up, clock, attempt + 1, fed'))
  {
    match up(attempt)
    case Refused(_) =>
    case Streams(events) =>
      var fed' := Fed(fed, Streamed(events));
      var next := Plan(m, up, clock, attempt + 1, fed');
      var t := Signal(RetryEvent(EndingOf(events).message, attempt, clock(attempt)), next);
      var a, now := Shown(m, fed), DropFirst(Shown(m, fed'), |Shown(m, fed)|);
      assert Plan(m, up, clock, attempt, fed) == Say(now, t);
      assert a + now == Shown(m, fed') by {
        assert fed'[..|fed|] == fed;
        ShownPrefix(m, fed, fed');
      }
      SaidAfter(a, now, t);
  }

  lemma SaidAfter(a: string, now: string, t: Transcript)
    ensures a + SaidIn(Say(now, t)) == a + now + SaidIn(t)
  {
    SaidSay(now, t);
    assert a + (now + SaidIn(t)) == a + now + SaidIn(t);
  }

  lemma {:induction false} EveryRunShows(m: Markers, up: Upstream, clock: nat -> int, attempt: nat, fed: string)
    requires attempt <= MAX_RETRIES
    ensures RunShows(m, up, clock, attempt, fed)
    decreases MAX_RETRIES - attempt
  {
    if GoesOn(up, attempt) {
      EveryRunShows(m, up, clock, attempt + 1, Fed(fed, TextOf(up(attempt))));
      OverlayNext(up, attempt, fed);
      SaidNext(m, up, clock, attempt, fed);
    } else {
      LastAttemptShows(m, up, clock, attempt, fed);
    }
  }

  /** A character that reaches the filter comes from the first attempt that streamed past it. */
  lemma {:induction false} FirstPast(fed: string, texts: seq<string>, i: nat) returns (j: nat)
    requires |fed| <= i < |Overlay(fed, texts)|
    ensures j < |texts| && i < |texts[j]| && Overlay(fed, texts)[i] == texts[j][i]
    ensures forall q | 0 <= q < j :: |texts[q]| <= i
    decreases |texts|
  {
    var fed' := Fed(fed, texts[0]);
    if i < |fed'| {
      assert Overlay(fed', texts[1..])[..|fed'|][i] == fed'[i];
      j := 0;
    } else {
      var k := FirstPast(fed', texts[1..], i);
      assert forall q | 1 <= q < k + 1 :: texts[q] == texts[1..][q - 1];
      j := k + 1;
    }
  }

  /** As much is fed as the longest attempt streamed. */
  lemma {:induction false} LongestFed(fed: string, texts: seq<string>) returns (j: nat)
    ensures forall q | 0 <= q < |texts| :: |texts[q]| <= |Overlay(fed, texts)|
    ensures |Overlay(fed, texts)| == |fed| || (j < |texts| && |Overlay(fed, texts)| == |texts[j]|)
    decreases |texts|
  {
    j := 0;
    if texts != [] {
      var fed' := Fed(fed, texts[0]);
      var k := LongestFed(fed', texts[1..]);
      forall q | 0 <= q < |texts| ensures |texts[q]| <= |Overlay(fed, texts)| {
        assert q > 0 ==> texts[q] == texts[1..][q - 1];
      }
      j := if |Overlay(fed, texts)| == |fed'| then 0 else k + 1;
    }
  }

  /** Attempts at one text that all break off somewhere, but for the last: the text is fed once. */
  lemma {:induction false} FedOnce(texts: seq<string>, text: string)
    requires texts != [] && texts[|texts| - 1] == text && forall q | 0 <= q < |texts| :: Begins(text, texts[q])
    ensures Overlay("", texts) == text
  {
    var all := Overlay("", texts);
    var longest := LongestFed("", texts);
    assert |all| == |text| by {
      assert |texts[|texts| - 1]| <= |all|;
      if |all| > 0 { assert Begins(text, texts[longest]); }
    }
    forall i | 0 <= i < |all| ensures all[i] == text[i] {
      var j := FirstPast("", texts, i);
      StartsAlike(text, texts[j], i);
    }
  }

  lemma StartsAlike(text: string, start: string, i: nat)
    requires Begins(text, start) && i < |start|
    ensures i < |text| && text[i] == start[i]
  {
    assert SameAt(text, start, i);
  }

  /** A reply that breaks off any number of times and is completed in the end is shown as if it had come
      in one piece: however the attempts cut it, even inside a tag, no character is lost, doubled or leaked. */
  lemma CompletedReply(m: Markers, up: Upstream, clock: nat -> int, text: string)
    requires var texts := TextsFrom(up, 0);
             texts[|texts| - 1] == text && forall q | 0 <= q < |texts| :: Begins(text, texts[q])
    requires Completes(up, 0)
    ensures SaidIn(Plan(m, up, clock, 0, "")) == Visible(m, text)
  {
    FedOnce(TextsFrom(up, 0), text);
    EveryRunShows(m, up, clock, 0, "");
    assert Shown(m, "") == "";
    assert "" + SaidIn(Plan(m, up, clock, 0, "")) == SaidIn(Plan(m, up, clock, 0, ""));
  }

  // ---------- How a run ends ----------

  /** The last event of a run: complete, or a retry numbered as the last attempt. */
  predicate Final(e: ModelStreamEvent) {
    e.Complete? || (e.Retry? && e.attempt >= e.maxAttempts)
  }

  /** Retries numbered upward and short of the last attempt, then one final event and nothing more. */
  ghost predicate EndsOnce(t: Transcript, last: nat) {
    match t
    case End => false
    case Show(_, rest) => EndsOnce(rest, last)
    case Signal(e, rest) =>
      if Final(e) then rest == End && (e.Retry? ==> e.attempt == MAX_RETRIES + 1 == e.maxAttempts)
      else e.Retry? && last < e.attempt < e.maxAttempts == MAX_RETRIES + 1 && EndsOnce(rest, e.attempt)
  }

  lemma {:induction false} SayEnds(s: string, rest: Transcript, last: nat)
    requires EndsOnce(rest, last)
    ensures EndsOnce(Say(s, rest), last)
  {
    if s != "" { SayEnds(s[1..], rest, last); }
  }

  lemma {:induction false} EveryRunEndsOnce(m: Markers, up: Upstream, clock: nat -> int, attempt: nat, fed: string)
    requires attempt <= MAX_RETRIES
    ensures EndsOnce(Plan(m, up, clock, attempt, fed), attempt)
    decreases MAX_RETRIES - attempt
  {
    var fed' := if up(attempt).Refused? then fed else Fed(fed, Streamed(up(attempt).events));
    if GoesOn(up, attempt) { EveryRunEndsOnce(m, up, clock, attempt + 1, fed'); }
    NextEndsOnce(m, up, clock, attempt, fed, fed');
  }

  lemma NextEndsOnce(m: Markers, up: Upstream, clock: nat -> int, attempt: nat, fed: string, fed': string)
    requires attempt <= MAX_RETRIES
    requires fed' == if up(attempt).Refused? then fed else Fed(fed, Streamed(up(attempt).events))
    requires GoesOn(up, attempt) ==> EndsOnce(Plan(m, up, clock, attempt + 1, fed'), attempt + 1)
    ensures EndsOnce(Plan(m, up, clock, attempt, fed), attempt)
  {
    match up(attempt)
    case Refused(_) => RefusalEndsOnce(m, up, clock, attempt, fed);
    case Streams(events) => AttemptEndsOnce(m, up, clock, attempt, events, fed);
  }

  lemma RefusalEndsOnce(m: Markers, up: Upstream, clock: nat -> int, attempt: nat, fed: string)
    requires attempt <= MAX_RETRIES && up(attempt).Refused?
    requires GoesOn(up, attempt) ==> EndsOnce(Plan(m, up, clock, attempt + 1, fed), attempt + 1)
    ensures EndsOnce(Plan(m, up, clock, attempt, fed), attempt)
  {
  }

  lemma AttemptEndsOnce(m: Markers, up: Upstream, clock: nat -> int, attempt: nat, events: seq<UpstreamEvent>, fed: string)
    requires attempt <= MAX_RETRIES && up(attempt) == Streams(events)
    requires GoesOn(up, attempt) ==> EndsOnce(Plan(m, up, clock, attempt + 1, Fed(fed, Streamed(events))), attempt + 1)
    ensures EndsOnce(Plan(m, up, clock, attempt, fed), attempt)
  {
    var fed' := Fed(fed, Streamed(events));
    var t := AfterAttempt(m, up, clock, attempt, events, fed');
    assert EndsOnce(t, attempt) by {
      if EndingOf(events).Finishes? {
        SayEnds(Scan(m, false, fed').Flush(), Signal(Complete(EndingOf(events).response), End), attempt);
      }
    }
    AttemptPlan(m, up, clock, attempt, events, fed);
    SayEnds(DropFirst(Shown(m, fed'), |Shown(m, fed)|), t, attempt);
  }

  /** At most four attempts are made: what a fifth would bring makes no difference. */
  lemma {:induction false} FourAttempts(m: Markers, up: Upstream, up': Upstream, clock: nat -> int, attempt: nat, fed: string)
    requires attempt <= MAX_RETRIES && forall k | 0 <= k <= MAX_RETRIES :: up(k) == up'(k)
    ensures Plan(m, up, clock, attempt, fed) == Plan(m, up', clock, attempt, fed)
    decreases MAX_RETRIES - attempt
  {
    match up(attempt)
    case Refused(_) =>
      if GoesOn(up, attempt) { FourAttempts(m, up, up', clock, attempt + 1, fed); }
      SameRefusal(m, up, up', clock, attempt, fed);
    case Streams(events) =>
      var fed' := Fed(fed, Streamed(events));
      if GoesOn(up, attempt) { FourAttempts(m, up, up', clock, attempt + 1, fed'); }
      SameAttempt(m, up, up', clock, attempt, events, fed, fed');
  }

  lemma SameRefusal(m: Markers, up: Upstream, up': Upstream, clock: nat -> int, attempt: nat, fed: string)
    requires attempt <= MAX_RETRIES && up(attempt) == up'(attempt) && up(attempt).Refused?
    requires GoesOn(up, attempt) ==> Plan(m, up, clock, attempt + 1, fed) == Plan(m, up', clock, attempt + 1, fed)
    ensures Plan(m, up, clock, attempt, fed) == Plan(m, up', clock, attempt, fed)
  {
  }

  lemma SameAttempt(m: Markers, up: Upstream, up': Upstream, clock: nat -> int, attempt: nat,
                    events: seq<UpstreamEvent>, fed: string, fed': string)
    requires attempt <= MAX_RETRIES && up(attempt) == up'(attempt) == Streams(events) && fed' == Fed(fed, Streamed(events))
    requires GoesOn(up, attempt) ==> Plan(m, up, clock, attempt + 1, fed') == Plan(m, up', clock, attempt + 1, fed')
    ensures Plan(m, up, clock, attempt, fed) == Plan(m, up', clock, attempt, fed)
  {
    AttemptPlan(m, up, clock, attempt, events, fed);
    AttemptPlan(m, up', clock, attempt, events, fed);
    assert AfterAttempt(m, up, clock, attempt, events, fed') == AfterAttempt(m, up', clock, attempt, events, fed');
  }

  function DelaySum(t: Transcript): real {
    match t
    case End => 0.0
    case Show(_, rest) => DelaySum(rest)
    case Signal(Retry(_, _, _, delay), rest) => delay + DelaySum(rest)
    case Signal(_, rest) => DelaySum(rest)
  }

  lemma {:induction false} SayDelays(s: string, rest: Transcript)
    ensures DelaySum(Say(s, rest)) == DelaySum(rest)
  {
    if s != "" { SayDelays(s[1..], rest); }
  }

  lemma DelayBound(attempt: nat, now: int)
    requires attempt < MAX_RETRIES
    ensures Power(attempt) <= RetryDelay(attempt, now) < 1.25 * Power(attempt)
  {
    assert Power(0) == 1.0 && Power(1) == 2.0 && Power(2) == 4.0;
    var p, f := Power(attempt), Fraction(now);
    assert 0.0 <= f * p < p;
  }

  lemma {:induction false} DelaysFrom(m: Markers, up: Upstream, clock: nat -> int, attempt: nat, fed: string)
    requires attempt <= MAX_RETRIES
    ensures 0.0 <= DelaySum(Plan(m, up, clock, attempt, fed)) <= 1.25 * (8.0 - Power(attempt))
    ensures attempt < MAX_RETRIES ==> DelaySum(Plan(m, up, clock, attempt, fed)) < 1.25 * (8.0 - Power(attempt))
    decreases MAX_RETRIES - attempt
  {
    assert Power(0) == 1.0 && Power(1) == 2.0 && Power(2) == 4.0 && Power(3) == 8.0;
    var fed' := Fed(fed, TextOf(up(attempt)));
    if GoesOn(up, attempt) {
      DelayBound(attempt, clock(attempt));
      DelaysFrom(m, up, clock, attempt + 1, if up(attempt).Refused? then fed else fed');
    }
    if up(attempt).Streams? {
      var events := up(attempt).events;
      AttemptPlan(m, up, clock, attempt, events, fed);
      SayDelays(DropFirst(Shown(m, fed'), |Shown(m, fed)|), AfterAttempt(m, up, clock, attempt, events, fed'));
      if EndingOf(events).Finishes? { SayDelays(Scan(m, false, fed').Flush(), Signal(Complete(EndingOf(events).response), End)); }
    }
  }

  /** The announced delays of a run add up to less than 8.75 seconds. */
  lemma ShortDelays(m: Markers, up: Upstream, clock: nat -> int)
    ensures 0.0 <= DelaySum(Plan(m, up, clock, 0, "")) < 8.75
  {
    DelaysFrom(m, up, clock, 0, "");
  }
}
