/** Which failures of a reply stream are retried (crates/rust-agent/src/model_service.rs): what comes next
    after each way an attempt can end, said of the event that ends it. */
module Failures {
  import opened Options
  import opened ToolTagFiltering
  import opened ModelStream

  /** From the next signal on. */
  function NextSignal(t: Transcript): Transcript {
    if t.Show? then NextSignal(t.rest) else t
  }

  /** The next attempt is announced, and it is the one that follows. */
  ghost predicate TriesAgain(t: Transcript, attempt: nat, message: string, delay: real, next: Transcript) {
    NextSignal(t) == Signal(Retry(message, attempt + 1, 4, delay), next)
  }

  /** The run ends with this failure, and nothing follows. */
  ghost predicate GivesUp(t: Transcript, message: string) {
    NextSignal(t) == Signal(Retry(message, 4, 4, 0.0), End)
  }

  /** A failure that may pass is tried again, but for the fourth attempt. */
  ghost predicate TriesUnlessLast(t: Transcript, attempt: nat, message: string, delay: real, next: Transcript) {
    if attempt < 3 then TriesAgain(t, attempt, message, delay, next) else GivesUp(t, "retries exhausted: " + message)
  }

  predicate Quiet(events: seq<UpstreamEvent>) {
    forall i | 0 <= i < |events| :: events[i].OutputTextDelta? || events[i].RefusalDelta? || events[i].Other?
  }

  /** The text that quiet events stream. */
  function TextIn(events: seq<UpstreamEvent>): string {
    if events == [] then ""
    else (match events[0] case OutputTextDelta(s) => s case RefusalDelta(s) => s case _ => "") + TextIn(events[1..])
  }

  /** The codes of failures that another attempt cannot mend. */
  predicate StopsRun(code: string) {
    || code == "bad_request" || code == "unauthorized" || code == "forbidden" || code == "not_found"
    || code == "conflict" || code == "validation_error" || code == "insufficient_balance"
    || code == "no_active_plan" || code == "upstream_rejected"
  }

  /** The transport errors that may pass: no connection, too many requests, and five statuses. */
  predicate MayPass(e: ClientError) {
    match e.kind
    case Network => true
    case RateLimited => true
    case ServerError(s) => s == 429 || s == 500 || s == 502 || s == 503 || s == 529
    case Api(s) => s == 429 || s == 500 || s == 502 || s == 503 || s == 529
    case OtherError => false
  }

  // ---------- What ends an attempt is the first event that is not quiet ----------

  lemma {:induction false} EndsAt(before: seq<UpstreamEvent>, tail: seq<UpstreamEvent>)
    requires Quiet(before) && (tail != [] ==> EndingAt(tail[0]).Some?)
    ensures EndingOf(before + tail) == EndingOf(tail) && Streamed(before + tail) == TextIn(before)
    decreases |before|
  {
    if before == [] {
      assert before + tail == tail;
    } else {
      assert (before + tail)[1..] == before[1..] + tail;
      EndsAt(before[1..], tail);
    }
  }

  lemma {:induction false} PastText(s: string, t: Transcript)
    ensures NextSignal(Say(s, t)) == NextSignal(t)
  {
    if s != "" { PastText(s[1..], t); }
  }

  /** After the text of an attempt comes what its ending says. */
  lemma EndingDecides(m: Markers, up: Upstream, clock: nat -> int, attempt: nat, events: seq<UpstreamEvent>, fed: string)
    requires attempt <= MAX_RETRIES && up(attempt) == Streams(events)
    ensures var t := NextSignal(Plan(m, up, clock, attempt, fed));
            match EndingOf(events)
            case Finishes(response) => t == Signal(Complete(response), End)
            case Stops(message) => t == Signal(Retry(message, 4, 4, 0.0), End)
            case Breaks(message) =>
              t == if attempt < 3 then Signal(Retry(message, attempt + 1, 4, RetryDelay(attempt, clock(attempt))),
                                              Plan(m, up, clock, attempt + 1, Fed(fed, Streamed(events))))
                   else Signal(Retry("retries exhausted: " + message, 4, 4, 0.0), End)
  {
    var fed' := Fed(fed, Streamed(events));
    AttemptPlan(m, up, clock, attempt, events, fed);
    PastText(DropFirst(ModelStream.Shown(m, fed'), |ModelStream.Shown(m, fed)|),
             AfterAttempt(m, up, clock, attempt, events, fed'));
    if EndingOf(events).Finishes? {
      PastText(Scan(m, false, fed').Flush(), Signal(Complete(EndingOf(events).response), End));
    }
  }

  // ---------- The ways an attempt can end ----------

  /** A failure with a code: it is tried again exactly when the code is none of the nine. */
  lemma CodedFailure(m: Markers, up: Upstream, clock: nat -> int, attempt: nat, fed: string,
                     before: seq<UpstreamEvent>, e: StreamError, x: UpstreamEvent, rest: seq<UpstreamEvent>)
    requires attempt <= 3 && Quiet(before) && (x == Failed(Some(e)) || x == Error(e))
    requires up(attempt) == Streams(before + ([x] + rest))
    ensures var t, shown := Plan(m, up, clock, attempt, fed), "[" + e.code + "] " + e.message;
            if StopsRun(e.code) then GivesUp(t, "request failed: " + shown)
            else TriesUnlessLast(t, attempt, shown, RetryDelay(attempt, clock(attempt)),
                                 if attempt < 3 then Plan(m, up, clock, attempt + 1, Fed(fed, TextIn(before))) else End)
  {
    EndsAt(before, [x] + rest);
    EndingDecides(m, up, clock, attempt, before + ([x] + rest), fed);
  }

  /** A failure without one is tried again. */
  lemma UncodedFailure(m: Markers, up: Upstream, clock: nat -> int, attempt: nat, fed: string,
                       before: seq<UpstreamEvent>, rest: seq<UpstreamEvent>)
    requires attempt <= 3 && Quiet(before) && up(attempt) == Streams(before + ([Failed(None)] + rest))
    ensures TriesUnlessLast(Plan(m, up, clock, attempt, fed), attempt, "AI provider stream failed", RetryDelay(attempt, clock(attempt)),
                            if attempt < 3 then Plan(m, up, clock, attempt + 1, Fed(fed, TextIn(before))) else End)
  {
    EndsAt(before, [Failed(None)] + rest);
    EndingDecides(m, up, clock, attempt, before + ([Failed(None)] + rest), fed);
  }

  /** So is a stream that just ends. */
  lemma Unended(m: Markers, up: Upstream, clock: nat -> int, attempt: nat, fed: string, before: seq<UpstreamEvent>)
    requires attempt <= 3 && Quiet(before) && up(attempt) == Streams(before)
    ensures TriesUnlessLast(Plan(m, up, clock, attempt, fed), attempt, "stream closed without a terminal event",
                            RetryDelay(attempt, clock(attempt)),
                            if attempt < 3 then Plan(m, up, clock, attempt + 1, Fed(fed, TextIn(before))) else End)
  {
    assert before + [] == before;
    EndsAt(before, []);
    EndingDecides(m, up, clock, attempt, before, fed);
  }

  /** A stream that breaks is tried again exactly when its error may pass. */
  lemma BrokenStream(m: Markers, up: Upstream, clock: nat -> int, attempt: nat, fed: string,
                     before: seq<UpstreamEvent>, e: ClientError, rest: seq<UpstreamEvent>)
    requires attempt <= 3 && Quiet(before) && up(attempt) == Streams(before + ([Broken(e)] + rest))
    ensures var t := Plan(m, up, clock, attempt, fed);
            if MayPass(e) then TriesUnlessLast(t, attempt, e.shown, RetryDelay(attempt, clock(attempt)),
                                               if attempt < 3 then Plan(m, up, clock, attempt + 1, Fed(fed, TextIn(before))) else End)
            else GivesUp(t, "request failed: " + e.shown)
  {
    EndsAt(before, [Broken(e)] + rest);
    EndingDecides(m, up, clock, attempt, before + ([Broken(e)] + rest), fed);
  }

  /** A refused connection is tried again exactly when its error may pass, and fails as itself at the last. */
  lemma RefusedConnection(m: Markers, up: Upstream, clock: nat -> int, attempt: nat, fed: string, e: ClientError)
    requires attempt <= 3 && up(attempt) == Refused(e)
    ensures var t := Plan(m, up, clock, attempt, fed);
            if MayPass(e) && attempt < 3 then
              TriesAgain(t, attempt, e.shown, RetryDelay(attempt, clock(attempt)), Plan(m, up, clock, attempt + 1, fed))
            else GivesUp(t, "request failed: " + e.shown)
  {
  }

  /** An answer ends the run, be it complete or cut short by its limits. */
  lemma Answered(m: Markers, up: Upstream, clock: nat -> int, attempt: nat, fed: string,
                 before: seq<UpstreamEvent>, r: Response, x: UpstreamEvent, rest: seq<UpstreamEvent>)
    requires attempt <= 3 && Quiet(before) && (x == Completed(r) || x == Incomplete(r))
    requires up(attempt) == Streams(before + ([x] + rest))
    ensures NextSignal(Plan(m, up, clock, attempt, fed)) == Signal(Complete(r), End)
  {
    EndsAt(before, [x] + rest);
    EndingDecides(m, up, clock, attempt, before + ([x] + rest), fed);
  }

  /** The delays are 1, 2 and 4 seconds, each longer by up to a quarter as the clock's milliseconds say; and
      half a minute from the sixth on, were there one. */
  lemma DelaysAre(now: int)
    ensures RetryDelay(0, now) == 1.0 + (now % 1000) as real / 4000.0
    ensures RetryDelay(1, now) == 2.0 * RetryDelay(0, now) && RetryDelay(2, now) == 4.0 * RetryDelay(0, now)
    ensures RetryDelay(5, now) == 30.0 * RetryDelay(0, now)
  {
    assert Power(0) == 1.0 && Power(1) == 2.0 && Power(2) == 4.0;
    assert Power(3) == 8.0 && Power(4) == 16.0 && Power(5) == 32.0;
  }
}
