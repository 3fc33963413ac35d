# A verified model of the agent workspace's hard parts

This project models, in Dafny, the parts of the repository where an incremental, retried or concurrent
computation has to agree with a simple statement of what it is for, and proves that agreement over all inputs,
all ways of cutting them up and all interleavings.

| file | what it models |
|---|---|
| `ToolTagFiltering.dfy` | the streaming filter that hides tool calls from the visible reply |
| `AssistantContent.dfy`, `BlockReading.dfy` | reading a finished reply back into text and tool blocks |
| `Rendering.dfy`, `BlockText.dfy`, `Messages.dfy` | writing blocks as protocol text and messages, and the round trip |
| `ModelStream.dfy`, `Failures.dfy` | the retry loop over a model's reply stream, and which failures it tries again |
| `Completion.dfy` | the message a completed reply becomes, against what was shown of it |
| `Fnmatch.dfy`, `GlobClasses.dfy` | the glob matcher that remembers only the latest star |
| `SseFraming.dfy`, `SseStream.dfy`, `SseGrammar.dfy`, `SseFields.dfy` | cutting a byte stream into server-sent event blocks |
| `RateLimit.dfy` | the fixed-window limiter over its store of expiring counters |
| `PersistState.dfy` | the three-valued state that coalesces background saves |
| `CaptchaKeys.dfy`, `Captcha.dfy` | the captcha service over the in-memory store |
| `Decimals.dfy`, `Balance.dfy`, `Amounts.dfy` | exact money amounts as text |
| `Autolink.dfy`, `Markdown.dfy`, `LinkTargets.dfy` | bare links in text, the two passes over Markdown events, and where the links lead |
| `Options.dfy`, `Lists.dfy`, `Strings.dfy`, `Products.dfy` | shared helpers |

## How the model stands to the program

Text is `seq<char>`. Every marker and class the program looks for in text is ASCII, so character positions stand
for its byte positions. Event streams are `seq<byte>`. Widths are written out where they matter (the 64-bit
amounts, the 4 MiB buffer cap, the deadline that does not fit an instant); other counters are unbounded.

JSON is a pair of functions, `write` and `parse`; lemmas that need it assume only that parsing undoes writing and
that printing has no outer whitespace (`Lawful`). What an event block parses to, UTF-8 and JSON included, is a
parameter of the stream. Clocks are parameters: the limiter's and the captcha store's methods are told the time.
Network attempts are a function from the number of the attempt to its finite list of events, and delays are exact
reals.

Objects whose methods update fields are classes with those fields (`ToolTagFilter`, `SseState`,
`RedisRateLimiter`, `MemoryCaptchaStore`, `CaptchaService`, `LinkPass`, `AutolinkPass`), and each method's contract
gives its whole new state through a function on which the lemmas are proved. Loops are loops. The two concurrent
protocols, saving switches and verifying captchas, are step systems: a run is any sequence of steps.

## Where the code and its documentation differ

The model follows the code.

* `captcha.rs:69-74` says that a cooldown ends when the captcha is consumed or expires. `set_captcha_nx` of the
  in-memory store looks only for the key, so an expired captcha keeps its slot:
  `Captcha.CooldownEndsUnlessExpired` says exactly when the documented behaviour holds, and
  `Captcha.ExpiredForEver` that no run of the service changes the slot any more once the captcha has expired with
  no verification past its look-up. One that looked in time and claims too late still empties it
  (`Captcha.LateClaimEmpties`).
* `captcha.rs:57-59` says that the key keeps accounts from colliding. Two accounts never share a key exactly when
  neither name goes on from the other with `:captcha:`, or with all of it but the last colon
  (`CaptchaKeys.AccountsApartExactly`); `CaptchaKeys.AccountsCanShare` gives two users with one key.
* `limiter.rs:37` says that a disabled limiter always allows. `check` and `check_n` return the not-available
  error; whether that lets a request through is left to the caller's fail-open setting.
* The comment in `chat_view.rs:610-613` gives as its reason that a link cannot contain a link. An image whose
  destination is remote becomes a link, and a link in its description stays one: `Markdown.ImageMayWrapLink`.
  `Markdown.RenderedIsSafe` has the exact condition: no link is nested exactly when no link that is kept starts
  inside a link that is kept or an image that is shown as a link.
* The worker loop in `tools.rs` lets a worker that panicked live on while the state is already idle.
  `PersistState.PanicAllowsTwoWorkers` and `PersistState.PanicCanLoseAToggle` give the runs in which two workers
  exist, and in which a switch stays unsaved with no banner until the next mount reads the failure marker.
  `PersistState.OneWorkerExactly` says when there is one worker all along, panics included: exactly when no toggle
  finds the state idle while a worker is alive; and then `PersistState.RestIsSaved` holds of every run. Over all
  runs with at most k panics, both hold exactly when k is 0 (`PersistState.OneWorkerExactlyWithoutPanic`,
  `PersistState.SavedExactlyWithoutPanic`).
* A tool call whose id ends in `name=` is read back with the name `" name="`. `Rendering.RoundTripExactly` has the
  exact condition.
* With at most k verifications at once, a captcha is compared with at most k times as many codes as the limit on
  failed attempts allows, and some run attains that (`Captcha.BoundsExactly`); the limit itself is kept exactly
  when k is at most one (`Captcha.LimitHoldsExactly`).

In the captcha store a code is expired when `now > expiry`, as its code says. The limiter's counters expire in
Redis, which is not part of this model; here such a counter is live while `now < expireAt`.

## Model

| member | source | states |
|---|---|---|
| ToolTagFiltering.TrailingPrefixOf | crates/rust-agent/src/model_service.rs:551-563 | the result ends the input, is a proper beginning of the marker, and no longer ending of the input is one |
| ToolTagFiltering.ToolTagFilter.Push | crates/rust-agent/src/model_service.rs:486-538 | what is shown, the mode and the carry after a piece are what scanning the carry and the piece gives; the carry is a proper beginning of the marker waited for |
| ToolTagFiltering.ToolTagFilter.Flush | crates/rust-agent/src/model_service.rs:541-547 | outside a tag the carry is given back, inside it is dropped, and nothing stays |
| ToolTagFiltering.ScanResumes | crates/rust-agent/src/model_service.rs:486-538 | scanning can stop anywhere: mode and carry are all that later text needs |
| ToolTagFiltering.ScanThenFlush | crates/rust-agent/src/model_service.rs:486-547 | scanning and flushing show what the character-by-character reading of the finished text shows |
| ToolTagFiltering.ChunkingIsInvisible | crates/rust-agent/src/model_service.rs:486-563 | for every cutting into pieces the outputs and the flush are the visible text of the whole, and the carry is at most 9 characters, 10 inside a tag |
| ToolTagFiltering.FilterChunks | crates/rust-agent/src/model_service.rs:464-547 | the same for a filter object driven over any pieces |
| AssistantContent.ParseAssistantContent | crates/rust-agent/src/model_service.rs:381-421 | the reading loop, moving through the text and pushing blocks, gives the blocks of the text's pieces |
| AssistantContent.NothingIsLost | crates/rust-agent/src/model_service.rs:381-421 | the pieces are stretches in order and apart, text blocks show their stretch or it trimmed, and everything between is whitespace |
| AssistantContent.ToolsAreRead | crates/rust-agent/src/model_service.rs:424-446 | each tool block is what the text reads as at the open marker where its stretch starts, to where it ends |
| AssistantContent.ParsingIsFailOpen | crates/rust-agent/src/model_service.rs:381-446 | for every text both of these hold of its blocks, and only blank text has no pieces, which is then kept as it is |
| BlockReading.AttrIs | crates/rust-agent/src/model_service.rs:449-458 | an attribute has exactly the value between the first `key="` and the next quote, if there is anything between |
| BlockReading.ToolIs | crates/rust-agent/src/model_service.rs:424-446 | a header and a body read as a tool call exactly when both attributes have values and the trimmed body parses, a blank body as the empty object |
| BlockReading.BlockIs | crates/rust-agent/src/model_service.rs:424-446 | a block's header ends at the first `>` after its open marker, and it at the first close marker after that |
| BlockReading.TextsAreRight | crates/rust-agent/src/model_service.rs:384-414 | a text piece holds no open marker and is trimmed, before a block or at the end, or ends in its only open marker, which starts no block, and is kept as it is |
| Rendering.NameAttr | crates/rust-agent/src/model_service.rs:449-458 | the name read from a written header is the name, unless the id ends in `name=` |
| Rendering.RoundTrip | crates/rust-agent/src/model_service.rs:304-308 | reading the rendering of trimmed, separated texts and tool blocks gives each block back, but for the names such ids hide |
| Rendering.RoundTripExactly | crates/rust-agent/src/model_service.rs:381-458 | the list comes back exactly when no id ending in `name=` hides another name |
| Rendering.FilterShowsTheTexts | crates/rust-agent/src/model_service.rs:304-308 | however a rendering is cut, the filter shows its texts and of each tool block only the line breaks around it |
| BlockText.UsePlaces | crates/rust-agent/src/model_service.rs:304-308 | where marker, id, name, input and close marker stand in a written tool call |
| BlockText.ResultPlaces | crates/rust-agent/src/model_service.rs:309-320 | where marker, id, `true` or `false`, content and close marker stand in a written tool result |
| BlockText.ResultsApart | crates/rust-agent/src/model_service.rs:309-320 | tool results whose ids have no quote are written differently if they differ |
| BlockText.BlankExactly | crates/rust-agent/src/model_service.rs:323-325 | without images what is written is blank exactly when there are only blank texts: tool calls and results never are |
| Messages.RenderMessage | crates/rust-agent/src/model_service.rs:282-340 | a message of blank texts alone is not sent, any other is: without images as its rendered text, else as parts that read as the message, none empty and no two texts together |
| Messages.RenderMessages | crates/rust-agent/src/model_service.rs:280-340 | the messages that are not just blank texts are sent in order, each as `user` or `assistant` and so rendered |
| Messages.ImagesApart | crates/rust-agent/src/model_service.rs:293-303 | where media type and data stand in an image's data URL, and that different images have different ones |
| ModelStream.StreamResponse | crates/rust-agent/src/model_service.rs:82-205 | the events of the attempt loop read as the plan of the run, in which each attempt adds what lies past all earlier ones; no text event is empty |
| ModelStream.PassDelta | crates/rust-agent/src/model_service.rs:124-138 | a piece feeds the filter with exactly the characters past those delivered, and the run stays on its plan |
| ModelStream.Forward | crates/rust-agent/src/model_service.rs:122-188 | the loop over an attempt's events feeds all its new text and ends as the first ending event says, or for want of one |
| ModelStream.StreamAttempt | crates/rust-agent/src/model_service.rs:118-203 | an attempt that got a stream ends the run or announces the next attempt, as the plan has it |
| ModelStream.RefusedAttempt | crates/rust-agent/src/model_service.rs:97-116 | an attempt that could not connect ends the run or announces the next, as the plan has it |
| ModelStream.FirstPast | crates/rust-agent/src/model_service.rs:126-133 | a fed character is that of the first attempt that streamed past it |
| ModelStream.LongestFed | crates/rust-agent/src/model_service.rs:126-133 | as many characters are fed as the longest attempt streamed |
| ModelStream.EveryRunShows | crates/rust-agent/src/model_service.rs:91-205 | a completed run shows the finished form of all that was fed; any other run what was decided of it |
| ModelStream.CompletedReply | crates/rust-agent/src/model_service.rs:91-145 | a reply that breaks off and is completed in the end is shown as if it had come in one piece |
| ModelStream.EveryRunEndsOnce | crates/rust-agent/src/model_service.rs:96-205 | retries are numbered strictly upward below the last attempt, then comes one final event and nothing after it |
| ModelStream.FourAttempts | crates/rust-agent/src/model_service.rs:96-96 | what a fifth attempt would bring makes no difference |
| ModelStream.DelayBound | crates/rust-agent/src/model_service.rs:605-609 | a delay is at least its power of two and less than a quarter more |
| ModelStream.ShortDelays | crates/rust-agent/src/model_service.rs:605-609 | the announced delays of a run add up to less than 8.75 seconds |
| Failures.CodedFailure | crates/rust-agent/src/model_service.rs:149-175 | after any text, a failure with a code is followed by the next attempt exactly when its code is none of the nine that stop a run and it is not the fourth; else by the final failure and nothing more |
| Failures.UncodedFailure | crates/rust-agent/src/model_service.rs:149-166 | a failure without a code is tried again until the fourth attempt |
| Failures.Unended | crates/rust-agent/src/model_service.rs:190-203 | so is a stream that ends with no final event |
| Failures.BrokenStream | crates/rust-agent/src/model_service.rs:177-184 | a stream that breaks is tried again exactly for no connection, too many requests, and the statuses 429, 500, 502, 503 and 529 |
| Failures.RefusedConnection | crates/rust-agent/src/model_service.rs:97-116 | a refused connection the same, but at the fourth attempt it fails as itself |
| Failures.Answered | crates/rust-agent/src/model_service.rs:139-148 | a completed or an incomplete response ends the run with it |
| Failures.DelaysAre | crates/rust-agent/src/model_service.rs:605-609 | delays start from one second, double, and stop at half a minute, each longer by up to a quarter as the clock's milliseconds say |
| Completion.CompleteEvent | crates/rust-agent/src/model_service.rs:346-376 | the final message is the text parsed, or the refusal when there is no text, with the usage or zeros and the reason it stopped |
| Completion.RunCompletes | crates/rust-agent/src/model_service.rs:139-147 | a run completes with the response of its last attempt, or not at all |
| Completion.ShownAndRead | crates/rust-agent/src/model_service.rs:91-147 | when written blocks are streamed with any breaks and completed, the texts and the line breaks around tool blocks are shown and the response parses to the blocks |
| Fnmatch.MatchClass | crates/rust-agent/src/fnmatch.rs:79-114 | a class is found where the pattern alone says, and accepts what its members and negation say |
| Fnmatch.ScanMembers | crates/rust-agent/src/fnmatch.rs:96-112 | scanning the members finds a range or a character that covers the one asked for, if there is one |
| Fnmatch.TestToken | crates/rust-agent/src/fnmatch.rs:38-62 | one pattern token takes the character or not, and where the next token starts |
| Fnmatch.MatchHere | crates/rust-agent/src/fnmatch.rs:19-74 | true exactly when the tokens match the whole name non-deterministically; at most (name + 1) * (pattern + 1) rounds |
| Fnmatch.FnMatch | crates/rust-agent/src/fnmatch.rs:13-17 | the same for the entry point |
| Fnmatch.PlainMatchesItself | crates/rust-agent/src/fnmatch.rs:4-10 | a pattern without special characters matches itself alone |
| Fnmatch.StarMatchesEndings | crates/rust-agent/src/fnmatch.rs:7-7 | a leading star and plain text match exactly the names that end in the text, `/` included |
| GlobClasses.JokersMatch | crates/rust-agent/src/fnmatch.rs:7-8 | `?` matches the names of one character, and `*` all names |
| GlobClasses.RangesMatch | crates/rust-agent/src/fnmatch.rs:96-114 | `[lo-hi]` matches the names of one character from lo to hi, and `[!lo-hi]` those of one other |
| GlobClasses.SetsMatch | crates/rust-agent/src/fnmatch.rs:79-114 | members without a hyphen stand for themselves, also a `]` that comes first, and negated for all others |
| GlobClasses.OpenBracketMatchesItself | crates/rust-agent/src/fnmatch.rs:10-10 | a bracket that nothing closes matches itself |
| SseFraming.DelimiterStays | app/client-api/src/ai.rs:846-867 | a delimiter found stays one, of the same length, when more bytes come |
| SseFraming.NoneBefore | app/client-api/src/ai.rs:846-867 | no earlier one appears in front of it |
| SseFraming.UndecidedIsNearTheEnd | app/client-api/src/ai.rs:825-837 | only the last three positions can still become delimiters |
| SseFraming.DrainResumes | app/client-api/src/ai.rs:828-843 | draining can stop anywhere: the residue is all that later bytes need |
| SseFraming.ChunkingIsInvisible | app/client-api/src/ai.rs:828-867 | for every chunking the blocks and the residue are those of the whole |
| SseStream.FindSseDelimiter | app/client-api/src/ai.rs:858-867 | the first delimiter from a position on, or none, and how many positions were looked at |
| SseStream.SseState.TakeNextSseEvent | app/client-api/src/ai.rs:828-843 | searching from the kept position takes out the block a search from the start would, and scanning stays within its budget |
| SseStream.SseState.Arrive | app/client-api/src/ai.rs:788-798 | a chunk joins the end, and no position scanned before can have become a delimiter |
| SseStream.SseState.ScanningIsLinear | app/client-api/src/ai.rs:818-837 | the positions examined are at most the bytes received and three for each search that found nothing |
| SseStream.SseState.Next | app/client-api/src/ai.rs:746-803 | each call hands out the next item of all that is pending, and the end only when nothing is |
| SseStream.OutputsExactly | app/client-api/src/ai.rs:746-803 | the items handed out are those of the blocks of all bytes, up to the one that ends the stream, exactly when no chunk that is read exceeds the buffer cap |
| SseStream.NotFitsOverflows | app/client-api/src/ai.rs:788-798 | a chunk that is read and exceeds the cap makes the stream overflow |
| SseStream.OutputsOfChunks | app/client-api/src/ai.rs:746-803 | from any residue, chunks that stay below the cap hand out the items of the residue and all their bytes |
| SseStream.ChunkingKeepsItems | app/client-api/src/ai.rs:746-803 | another chunking of the same bytes as one that stays below the cap hands out the same items exactly if it stays below too |
| SseStream.ChunkingMattersAbove | app/client-api/src/ai.rs:788-798 | such a pair exists for every parser: bytes that overflow the buffer in one chunk fit in two |
| SseGrammar.BlocksAreGroups | app/client-api/src/ai.rs:821-867 | the blocks of any bytes, split into non-empty lines and without the blank ones, are the groups that section 9.2.5 of the WHATWG HTML Living Standard completes |
| SseGrammar.NoCutInsidePair | app/client-api/src/ai.rs:846-856 | no block and no residue starts or stops inside a CRLF |
| SseGrammar.ExtractFields | app/client-api/src/ai.rs:879-897 | the trimmed event name and the joined data of a block are what its grammar lines say |
| SseFields.FieldsAre | app/client-api/src/ai.rs:879-897 | the event is what follows the last `event:`, trimmed; the data is what follows each `data:` and one space, joined by line feeds |
| RateLimit.RedisRateLimiter.CheckN | crates/distributed-ratelimit/src/limiter.rs:92-124 | one script counts on the key's live counter or opens a window with its expiry time, and allows up to the limit; no counter is ever left without an expiry time, and the counter of every other key stays |
| RateLimit.RedisRateLimiter.IncrBy | crates/distributed-ratelimit/src/limiter.rs:109-111 | a missing or expired counter counts from 0 and has no expiry time yet; a live one keeps its own |
| RateLimit.RedisRateLimiter.Check | crates/distributed-ratelimit/src/limiter.rs:144-174 | the same for one |
| RateLimit.RunIsOrderly | crates/distributed-ratelimit/src/limiter.rs:109-124 | windows do not overlap, and in each all admissions come before all rejections |
| RateLimit.AdmittedPerWindow | crates/distributed-ratelimit/src/limiter.rs:109-124 | no window admits more than the limit, by weight |
| RateLimit.AnySpan | crates/distributed-ratelimit/src/limiter.rs:109-124 | any span as long as a window admits at most twice the limit less one |
| RateLimit.SpanLimitIsReached | crates/distributed-ratelimit/src/limiter.rs:109-124 | and some run admits that much |
| RateLimit.KeysAreIndependent | crates/distributed-ratelimit/src/limiter.rs:178-184 | in any run of the limiter's own steps on many keys, under any prefix, a key's decisions are those of its own requests alone |
| RateLimit.EveryRunIsLimited | crates/distributed-ratelimit/src/limiter.rs:92-174 | all of this for every run of calls on any keys from an empty store |
| RateLimit.KeysStayApart | crates/distributed-ratelimit/src/limiter.rs:178-184 | under one prefix different keys are different counters |
| RateLimit.RedisRateLimiter.BuildKeysApart | crates/distributed-ratelimit/src/limiter.rs:178-184 | so are the keys that a limiter builds |
| PersistState.OneWorkerExactly | app/ui/src/tool_panel.rs:34-84 | in every run from at most one worker, panics included, there is at most one in every state exactly when no toggle finds the state idle while a worker is alive |
| PersistState.StepKeepsSafe | app/web/src/views/tools.rs:130-252 | every step but such a toggle keeps the invariant of saving, panics and recovery included |
| PersistState.RestIsSaved | app/web/src/views/tools.rs:130-252 | under that condition a run at rest, idle with no worker and no toggle in mid-step, has the latest switches saved or the banner up, and has not saved more often than toggles came |
| PersistState.NoToggleLost | app/ui/src/tool_panel.rs:34-84 | so after any run without a panic there is at most one worker and none at idle, and at idle with no toggle in mid-step the latest switches are saved or the banner is up |
| PersistState.PanicAllowsTwoWorkers | app/web/src/views/tools.rs:192-236 | with a panic two workers can exist |
| PersistState.PanicCanLoseAToggle | app/web/src/views/tools.rs:180-252 | and a switch can stay unsaved at rest with no banner |
| PersistState.SavedExactlyWithoutPanic | app/web/src/views/tools.rs:130-252 | all runs with at most k panics have the switches saved at rest, or the banner up, exactly when k is 0 |
| PersistState.OneWorkerExactlyWithoutPanic | app/web/src/views/tools.rs:130-252 | and at most one worker exactly then |
| Captcha.MemoryCaptchaStore.SetCaptchaNx | crates/wechat-api/src/store.rs:156-174 | stores only when the key has no code, expired or not, and then resets its count |
| Captcha.MemoryCaptchaStore.ConsumeCaptcha | crates/wechat-api/src/store.rs:176-189 | removes the code and hands it out unless it has expired |
| Captcha.MemoryCaptchaStore.PeekCaptcha | crates/wechat-api/src/store.rs:191-203 | shows the code that is there and has not expired, and changes nothing |
| Captcha.MemoryCaptchaStore.IncrFailedAttempts | crates/wechat-api/src/store.rs:205-210 | counts one more, from 0 if there is no count |
| Captcha.MemoryCaptchaStore.DeleteCaptcha | crates/wechat-api/src/store.rs:217-221 | empties the slot |
| CaptchaKeys.UsersApart | crates/wechat-api/src/captcha.rs:55-62 | under one account each user has a key of their own |
| CaptchaKeys.AccountsApartExactly | crates/wechat-api/src/captcha.rs:55-62 | two accounts never share a key exactly when neither name goes on from the other with the separator |
| CaptchaKeys.PlainAccountsApart | crates/wechat-api/src/captcha.rs:55-62 | so accounts and users are told apart when account names have no colon |
| CaptchaKeys.AccountsCanShare | crates/wechat-api/src/captcha.rs:55-62 | and two users of two accounts who share a key |
| Captcha.GeneratedIsVerified | crates/wechat-api/src/captcha.rs:75-138 | a captcha just generated is verified by its code in any letter case, and by no other, as long as its lifetime lasts or if its deadline cannot be stored |
| Captcha.CaptchaService.Generate | crates/wechat-api/src/captcha.rs:75-88 | a code is returned exactly when the user's slot was empty, and then it is the one stored; the slots of all other users stay |
| Captcha.CaptchaService.VerifyForOpenid | crates/wechat-api/src/captcha.rs:95-138 | outcome and slot of an undisturbed verification, for all four outcomes; the slots of all other users stay |
| Captcha.AloneIsAtomic | crates/wechat-api/src/captcha.rs:95-138 | a verification that no store call interrupts is that one |
| Captcha.EveryCaptchaCounts | crates/wechat-api/src/captcha.rs:75-138 | under any interleaving of store calls, captchas generated are those consumed, expired, deleted or present, and no more verifications succeed than were consumed |
| Captcha.MostComparisons | crates/wechat-api/src/captcha.rs:95-138 | with at most k verifications at once, a captcha is compared with at most k * max(limit, 1) codes, whatever else interleaves |
| Captcha.MostIsReached | crates/wechat-api/src/captcha.rs:95-138 | and some such run compares it with that many |
| Captcha.FewComparisons | crates/wechat-api/src/captcha.rs:95-138 | so at most max(limit, 1) when no verification begins while another is under way |
| Captcha.OverlapComparesMore | crates/wechat-api/src/captcha.rs:104-120 | for every limit, two verifications at once can compare twice that many |
| Captcha.AllCompared | crates/wechat-api/src/captcha.rs:104-120 | any number at once can all be compared before one failure is counted |
| Captcha.BoundsExactly | crates/wechat-api/src/captcha.rs:95-138 | a number bounds the comparisons of all runs with at most k verifications at once exactly when it is at least k * max(limit, 1) |
| Captcha.LimitHoldsExactly | crates/wechat-api/src/captcha.rs:95-138 | the limit itself does exactly when k is at most one |
| Captcha.CooldownEndsUnlessExpired | crates/wechat-api/src/store.rs:163-166 | generating works whenever no live captcha exists exactly if no expired one is stored |
| Captcha.ExpiredForEver | crates/wechat-api/src/store.rs:163-166 | an expired captcha with no verification past its look-up keeps its slot through every interleaving of later store calls: no generation succeeds, and every verification finds nothing |
| Captcha.LateClaimEmpties | crates/wechat-api/src/store.rs:176-186 | a verification that looked in time and claims after the expiry empties the slot |
| Balance.ParseDisplayAmount | app/web/src/balance.rs:28-61 | the amount v exactly when the trimmed text is digits with at most one point, at least one digit, at most ten after the point, and its exact value in stored units is v and fits 64 bits |
| Balance.PadFraction | app/web/src/balance.rs:53-58 | padding scales the fraction to ten digits |
| Balance.FormatParses | app/web/src/balance.rs:10-18 | reading a formatted amount gives it back cut to cents, for every amount above minus one cent, and nothing below |
| Amounts.BalanceShows | app/web/src/balance.rs:10-18 | an amount is shown as its whole cents, two digits after the point and no needless zero in front, after a minus sign if it is a cent or more below zero |
| Amounts.CentsAreShownApart | app/web/src/balance.rs:10-18 | what is shown tells the cents |
| Autolink.FindUrlEnd | app/ui/src/chat_view.rs:450-481 | where a URL ends: at the end of its run without trailing punctuation and then without excess closing parentheses |
| Autolink.UrlSpanIsUnique | app/ui/src/chat_view.rs:450-481 | which fixes that end |
| Autolink.FindUrl | app/ui/src/chat_view.rs:424-484 | whether a URL stands at a position that no word runs into, where it ends and where it leads |
| Autolink.FindEmail | app/ui/src/chat_view.rs:486-508 | whether an email address starts at a position inside no longer candidate |
| Autolink.CheckAddress | app/ui/src/chat_view.rs:499-508 | an address has one `@`, something before it, and a domain with a point and no hyphen at its ends |
| Autolink.FindBareAutolink | app/ui/src/chat_view.rs:416-515 | the first position at which a URL or an email address stands, with its end and destination, or none anywhere |
| Markdown.AutolinkTextEvents | app/ui/src/chat_view.rs:517-538 | the events of a text with each of its links, the first after the one before, made a link |
| Markdown.LinkPass.Filter | app/ui/src/chat_view.rs:566-646 | one step of the first pass, on its stacks of decisions and its depth |
| Markdown.RewriteKeepsNesting | app/ui/src/chat_view.rs:566-646 | a well-nested stream comes out well nested, although links and images are dropped and images become links |
| Markdown.RewriteLinksApartExactly | app/ui/src/chat_view.rs:610-637 | no link comes out inside a link exactly when no link that is kept starts inside a link that is kept or an image that is shown as a link |
| Markdown.RewriteKeepsLinksApart | app/ui/src/chat_view.rs:610-637 | in particular when none goes in inside a link or an image at all |
| Markdown.ImageMayWrapLink | app/ui/src/chat_view.rs:610-637 | with a link inside an image one can |
| Markdown.RewriteIsSafe | app/ui/src/chat_view.rs:338-378 | only safe destinations and no raw HTML come out, and all the text does |
| Markdown.AutolinkPass.FlatMap | app/ui/src/chat_view.rs:650-680 | one step of the second pass: only text outside links, images and code blocks is searched |
| Markdown.CountersTellWhatIsOpen | app/ui/src/chat_view.rs:647-680 | in a well-nested stream bare links are made exactly where no link, image or code block is open |
| Markdown.PassKeepsNesting | app/ui/src/chat_view.rs:647-680 | the second pass keeps the stream well nested |
| Markdown.PassKeepsLinksApart | app/ui/src/chat_view.rs:647-680 | its links come out apart exactly when they go in apart |
| Markdown.PassIsSafe | app/ui/src/chat_view.rs:517-538 | it changes no text and adds only safe destinations |
| Markdown.PassedIsUnique | app/ui/src/chat_view.rs:517-538 | what it makes of a stream is determined: a text has one chain of links |
| Markdown.RenderEvents | app/ui/src/chat_view.rs:552-680 | both passes together, each event through the first and then the second |
| Markdown.RenderedIsSafe | app/ui/src/chat_view.rs:547-683 | what comes out of both is safe, has all the text, and is well nested if the stream was, with the exact condition for links apart |
| LinkTargets.SafeUrlsAre | app/ui/src/chat_view.rs:338-378 | a link may lead to a fragment, to a place on the same host, or to what starts with `http:`, `https:` or `mailto:` in any letter case; an image may come from the same host |
| LinkTargets.RewriteIsKept | app/ui/src/chat_view.rs:566-646 | what comes out of the first pass of any well-nested stream, said of its own tags: which links and images are kept, as what, where they lead, and how each is closed |
| LinkTargets.UrlPrefixIs | app/ui/src/chat_view.rs:428-446 | a URL starts with `https://`, `http://` or `www.` in any letter case |
| LinkTargets.ChainIsBare | app/ui/src/chat_view.rs:517-538 | a text is cut into its links and the texts between, and each link leads to itself, after `http://` if it starts with `www.` |
| LinkTargets.PassMakesBareLinks | app/ui/src/chat_view.rs:647-680 | the second pass does so wherever no link, image or code block is open, and changes nothing else |
| LinkTargets.RenderedLeads | app/ui/src/chat_view.rs:547-683 | so what is rendered of a well-nested stream are the links and images it keeps, leading where they should, and the bare links of its text |
| Markdown.FootnotesStayApart | app/ui/src/chat_view.rs:540-544 | footnotes of different messages or names never share a name |

## Left out

- Network, timers, database, Redis connections, framework adapters, components, CORS, internationalisation: plumbing with nothing to prove here.
- The Markdown parser and the HTML writer, UTF-8 decoding and JSON itself: parameters, or outside the model.
- The random code generator and the delivery of captchas; codes are arbitrary strings.
- The binding and access-token stores of `store.rs`: simple maps. Of the captcha store, `set_captcha`, which overwrites: the service never calls it.
- ModelStream.StreamResponse: delays are exact reals, so the rounding of 32-bit floats is not modelled; it hands out the response itself, and Completion.CompleteEvent makes the message of it.
- How a response's text, refusal, usage and reason are found in its JSON is not modelled.
- SseGrammar.BlocksAreGroups: the byte order mark at the start of a stream and the dispatch rules of section 9.2.6 are not modelled; the code does neither.
- SseGrammar.ExtractFields: what trimming a name removes is a parameter, since it depends on decoding.
- RateLimit.RedisRateLimiter.CheckN: amounts are positive, as its debug assertion asks, and counters do not overflow 64 bits.
- PersistState.PanicCanLoseAToggle: the failure marker in the store, which brings the banner back when a view is next mounted, is not modelled, only the banner; owner scopes are not either.
- Captcha.CaptchaService.Generate: one configured lifetime; trigger keywords are not considered.
- Markdown.RenderEvents: inline code, breaks, rules and task markers are one kind of event that both passes let through.
