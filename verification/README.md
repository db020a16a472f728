# Verification of runveil's redaction, audit delivery and policy reload

runveil is a local proxy between AI tools and their vendors. It scans request bodies for
secrets, and by policy it blocks a request, masks parts of it, or lets it pass. It writes an
audit log, delivers it to a collector, and reloads its policy while it runs. This project
models that behaviour in Dafny and proves what it promises.

`dafny verify dfyconfig.toml` checks the whole project. Automatic induction is switched off on
every lemma; each induction is written out as a recursive call.

## What is modelled

**Redaction.** A request body is a tree of JSON values in which every value also carries its
own wire text, because tool inputs are scanned and masked as raw text (`Wire`). `Parser`
flattens the three vendor shapes into segments, each with a role, an index and a text. `Redact`
walks the same tree and masks the spans that redactions name. Every loop of the source is a
method, proved equal to a function; the theorems are about those functions.

- `Spans` masks a text in place, from the last span to the first. The run over the bytes is
  compared with a run over cells that remember which original byte they are, so that "no
  covered byte survives" is a statement about indices and holds for overlapping, nested,
  repeated and tied spans. A mask has ten bytes; ten is the least span length for which this
  holds.
- `RedactProofs.ParseAfterRedact` says that parsing and redacting commute on all three
  endpoints: two independent recursive walks agree on every body.
- `Completeness` says what the parser must find without the parser: a conversation is told apart
  from JSON, `SpellsBody` says which documents spell which conversation, and a request parses
  into exactly the texts of the conversation that its body spells, or is malformed exactly when
  it spells none. On plain bodies these are the texts that the redactor looks at.
- `Coverage` says exactly when redaction succeeds, and that it never misses a segment the
  parser found. `Frame` says what each place of the body holds afterwards, for any redactions.
- `Regex`, `Detector` and `Patterns` show that every finding of the built-in table is at least
  as long as the mask. `Policy`, `Glob`, `SecretScan` and `Pipeline` carry findings to a
  decision and to the forwarded body. `EndToEnd` joins them: what the stage finds, decides and
  forwards is told by what the patterns detect in the segments of the body as it was sent.

**Audit delivery.** `HttpSink` is the batching goroutine as one object. A ghost field records
the whole run: every batch, what became of it, and every POST with its body and its answer, from
which what the collector accepted and the failures since the last success are read off. The
methods make exactly the steps of a relation, and the results are about every run of that
relation. `Shutdown` is the protocol that the file writer and the sink
share, as interleaved steps of any number of loggers, one runner and one closer. `Framing` is
the round trip from a batch body back to its lines.

**Policy reload.** `Remote` is the polling client with its validators, its cache file, the
active policy and the audit events. `Watcher` is the debounce loop as interleaved steps of the
file system, the timer, its callbacks and the loop.

**Quoting.** `Quote` reads a quoted string back with the rules of the POSIX Shell Command
Language, sections 2.2.1 and 2.2.2.

Where the code and its comments disagree the model follows the code: `RedactRequest` says that
all bytes other than the matched strings pass through, but rebuilt values are re-encoded and
compacted, so the results here are about JSON values; and `redactOpenAIResponses` says that
function_call items are left untouched, but their arguments are redacted. `Chain.Run` says that a
stage returning an error counts as Continue, but a Block returned with an error stands.

The redactor looks at more than the parser finds in four places
(`Completeness.OnlyTheRedactorLooks`): the arguments of a tool call that is not of type function,
an array that holds something else than objects, tool blocks in the content of an OpenAI message,
and the blocks of a function call's output.

## What is assumed

- `Library.Lawful`: `sort.Slice` returns some descending ordering of the spans (it is unstable,
  so any one); compacting a value's text makes it empty only if it was; a text that does not
  begin with a blank and decodes as JSON shows its kind in its first byte.
- `WellFormed`: the same holds of every value of a decoded body, whose texts begin with the
  value itself.
- `Engine.Lawful`: a reported match is a match of the expression, within the text, on any bytes,
  valid UTF-8 or not; sorting by offset returns a sorted permutation.

`Assumptions` shows that these can be met, by a decoder that skips blanks and an engine that
matches bytes which begin no character.

## Model

| member | source | states |
|---|---|---|
| Spans.ApplySpans | internal/parser/redact.go:225-238 | the in-place loop over a buffer computes the masking that the results below are about, and fails exactly when a span is out of range where it is applied |
| Spans.MaskingTracksOrigins | internal/parser/redact.go:225-238 | a masked text is its origins read off afterwards: every output byte is a given mask byte or a given original byte |
| Spans.NoCoveredByteSurvives | internal/parser/redact.go:225-238 | for any text and any spans of at least ten bytes, overlapping, nested, repeated or tied, masking errors or leaves no byte that any span covers; survivors keep their order and never move right |
| Spans.NineByteSpansCanLeak | internal/parser/redact.go:225-238 | a span of nine bytes can push a byte covered by another span out of its reach |
| Spans.SafeFromTheMaskOn | internal/parser/redact.go:225-238 | a lower bound on span lengths makes masking safe for all texts and spans if and only if it is at least the length of the mask |
| Spans.RightmostSplits | internal/parser/redact.go:225-238 | the left-to-right text of disjoint spans splits at the rightmost one |
| Spans.DisjointMasking | internal/parser/redact.go:225-238 | for disjoint in-range spans of positive length masking never errors and gives the left-to-right text, whatever the order of the list and of ties in the sort |
| Spans.MaskedLength | internal/parser/redact.go:225-238 | whenever masking succeeds the length is that of the text minus the spans plus ten bytes for each, and no text becomes empty |
| Assumptions.LibrariesCanBeLawful | internal/parser/redact.go:225-238 | the assumptions about sorting and JSON can be met |
| Assumptions.BlanksAreAccepted | internal/parser/redact.go:424-426 | and leave room for a decoder that accepts a text with a leading blank, as json.Valid does |
| Assumptions.EnginesCanBeLawful | internal/detector/detector.go:80-112 | the assumptions about matching can be met by an engine that matches a lone invalid byte |
| Wire.Library.Encoded | internal/parser/redact.go:385-397 | re-encoding changes the wire text of a rebuilt value and nothing else |
| Wire.Library.Compacted | internal/parser/redact.go:222 | marshalling the rebuilt body keeps every value, at any depth, and compacts every text |
| Parser.FlattenAnthropicContent | internal/parser/anthropic.go:70-120 | the texts of Anthropic content at any nesting of tool results, in order; null, other kinds and arrays with non-objects give none |
| Parser.FlattenAnthropicBlock | internal/parser/anthropic.go:86-118 | one block contributes its text, its tool input verbatim, or what is inside its tool result |
| Parser.FlattenOpenAIContent | internal/parser/openai.go:82-118 | the texts of OpenAI content in order |
| Parser.AppendSegments | internal/parser/anthropic.go:28-52 | exactly the texts that are not empty become segments, with their role and index |
| Parser.AnthropicTexts | internal/parser/anthropic.go:18-60 | the system prompt, then every message in order |
| Parser.ChatTexts | internal/parser/openai.go:29-72 | for each message its content, then its function-call arguments |
| Parser.AppendChatMessage | internal/parser/openai.go:39-64 | one chat message's segments, content before arguments |
| Parser.CollectArguments | internal/parser/openai.go:50-63 | arguments of the tool calls of type function only |
| Parser.CallArguments | internal/parser/openai.go:151-160 | arguments given as a string count by the string's value, inline ones by their raw text |
| Parser.ResponsesTexts | internal/parser/openai_responses.go:13-103 | the instructions, then the input as a string or as a list of items |
| Parser.AppendItem | internal/parser/openai_responses.go:41-92 | an item with a role contributes its content, otherwise a tool output or the arguments of a call |
| Parser.ParseRequest | internal/parser/parser.go:33-51 | dispatch by method, host and path, and an error exactly for bodies that do not decode into the endpoint's shape |
| Completeness.ContentFound | internal/parser/anthropic.go:70-120 | content that spells some texts gives exactly those that are not empty, in order: a string its value, an array of objects its text blocks, tool inputs and, at any depth, tool results, anything else none |
| Completeness.ParseExactly | internal/parser/parser.go:33-51 | for every request: not recognised exactly when it is not a POST to one of the three endpoints, malformed exactly when its body is not JSON or spells no conversation, and otherwise the texts of the conversation that the body spells, in order |
| Completeness.ContentAgrees | internal/parser/redact.go:312-398 | where every content array holds objects only, the texts the redactor looks at that are not empty are, in order, exactly the segments the parser returns |
| Completeness.NothingIsOverlooked | internal/parser/redact.go:308-398 | the same for the whole body on all three endpoints |
| Completeness.OnlyTheRedactorLooks | internal/parser/redact.go:440-491 | the places where the redactor looks and the parser finds nothing |
| Redact.MaybeRedact | internal/parser/redact.go:516-534 | masks a text by every redaction that names it, marks exactly those as applied, and fails when a span is out of range |
| Redact.RedactContent | internal/parser/redact.go:312-398 | the recursive walk over content, with exactly the redactions marked that name a text it looked at |
| Redact.RedactBlocks | internal/parser/redact.go:326-397 | the loop that overwrites blocks in place, and re-encodes the array only when one changed |
| Redact.RedactBlock | internal/parser/redact.go:337-394 | the switch on a block's type |
| Redact.RedactToolUseInput | internal/parser/redact.go:498-514 | a masked tool input that is no longer JSON is an error |
| Redact.RedactToolArguments | internal/parser/redact.go:406-435 | masked arguments keep their wire form and must still be JSON |
| Redact.RedactToolCalls | internal/parser/redact.go:440-491 | the loop over tool calls; what is not a call with arguments stays |
| Redact.RedactItemSlice | internal/parser/redact.go:276-306 | the loop that overwrites messages or input items in place |
| Redact.RedactItem | internal/parser/redact.go:151-207 | one message or item of each endpoint, with the role and key its text is looked up under |
| Redact.RedactChatMessage | internal/parser/redact.go:68-104 | content and tool calls of a chat message, re-encoded only when one changed |
| Redact.RedactTop | internal/parser/redact.go:241-262 | the system prompt or instructions, then the messages or the input |
| Redact.RedactRequest | internal/parser/redact.go:39-53 | no redactions return the body as it is; an unknown endpoint, a body that is not an object, or a redaction that was not applied is an error |
| RedactProofs.MaskTextFacts | internal/parser/redact.go:516-534 | a masked text is empty only if the text was, begins as before or with the mask, and masking can fail only by a span out of range |
| RedactProofs.ContentCommutes | internal/parser/redact.go:312-398 | flattening redacted content gives the flattened texts of the original, masked, at any depth |
| RedactProofs.ToolUseBlockCommutes | internal/parser/redact.go:498-514 | the same for a tool input, whose masked text is the raw text read back |
| RedactProofs.ArgumentsCommute | internal/parser/redact.go:406-435 | the same for tool-call arguments: a string stays a string and inline arguments stay inline |
| RedactProofs.ToolCallCommutes | internal/parser/redact.go:440-491 | the same for a whole tool call, whose type and function stay |
| RedactProofs.ChatMessageCommutes | internal/parser/redact.go:57-118 | the same for a chat message: content, then arguments |
| RedactProofs.OutputCommutes | internal/parser/redact.go:173-187 | the same for the output of a function call |
| RedactProofs.FunctionCallCommutes | internal/parser/redact.go:188-206 | the same for a function_call item |
| RedactProofs.MessageStillDecodes | internal/parser/redact.go:276-306 | a redacted message still decodes into the endpoint's struct |
| RedactProofs.AnthropicCommutes | internal/parser/redact.go:241-271 | a redacted Anthropic body parses into the masked segments of the original |
| RedactProofs.ResponsesCommute | internal/parser/redact.go:123-223 | a redacted Responses body parses into the masked segments of the original |
| RedactProofs.ParseAfterRedact | internal/parser/redact.go:35-53 | on all three endpoints, for any spans, a redacted body parses into the original segments in the original order, each masked where a redaction names it |
| RedactProofs.EmptyStaysEmpty | internal/parser/redact.go:518-534 | an empty text that can be masked stays empty if and only if no redaction that names it has spans |
| RedactProofs.NamingAnEmptyTextAddsProse | internal/parser/redact.go:518-534 | why redactions must not name empty texts with spans: masking one adds a segment that was not there |
| Coverage.ContentSucceeds | internal/parser/redact.go:312-398 | the walk over content succeeds exactly when every text it looks at can be masked |
| Coverage.EverySegmentVisited | internal/parser/redact.go:308-398 | every segment the parser finds is looked at by the redactor with equal role, index and content, at any nesting |
| Coverage.RedactionSucceedsExactly | internal/parser/redact.go:112-117 | for any redactions of any body, redaction succeeds if and only if the messages or the input can be walked, each text looked at can be masked and each redaction names one of them; "not found as redactable prose" is the answer exactly when only the last fails, which cannot happen for segments that the parser found |
| Coverage.RedactRequestExactly | internal/parser/redact.go:39-53 | by host and path: no redactions return any body as it is, the three endpoints are redacted by their own walk and fail exactly as the row above says, every other host or path is refused |
| Frame.ContentIsKept | internal/parser/redact.go:312-398 | at any depth, a named string, text block or tool input holds its masked text and nothing else of the content differs; with nothing named the content is returned as it was |
| Frame.RedactionKeepsTheRest | internal/parser/redact.go:35-38 | at each endpoint the one place that a message's or item's role and type make redactable holds its text masked where it is named, and every other JSON value of the body is unchanged |
| Frame.UnnamedContent | internal/parser/redact.go:379-396 | content that no redaction names is returned as it was, byte for byte |
| Frame.UnnamedToolCallArray | internal/parser/redact.go:483-490 | tool calls that no redaction names are returned as they were |
| Frame.UnnamedItem | internal/parser/redact.go:144-207 | a message or item that no redaction names changes at most in its encoding |
| Regex.MinLengthSound | internal/detector/patterns.go:9-197 | every match of an expression is at least as long as its computed minimum |
| Detector.Registry.AddPattern | internal/detector/detector.go:71-75 | a pattern is added after those already registered |
| Detector.Registry.Scan | internal/detector/detector.go:80-112 | the nested loops and the sort compute the findings that the next rows describe |
| Detector.ScanFindsExactly | internal/detector/detector.go:80-112 | the findings are exactly the matches that pass their entropy filter, one for each, with the name and the severity of their pattern, sorted by offset, in range and no shorter than their pattern's minimum |
| Patterns.BuiltInsAreLong | internal/detector/patterns.go:9-197 | no built-in pattern can match fewer than ten bytes |
| Patterns.SlackBotTokenMeetsTheBound | internal/detector/patterns.go:107-111 | the minimum of slack_bot_token is exactly ten |
| Patterns.BuiltInScan | internal/detector/detector.go:80-112 | every finding of the built-in table is in range, at least ten bytes long, and sorted by offset |
| Glob.CompileGlob | internal/policy/match.go:29-53 | the expression is the anchored translation; the empty glob is an error |
| Glob.TokensOfTranslation | internal/policy/match.go:34-47 | quoting keeps every literal character from being read as syntax |
| Glob.CompiledGlobIsTheGlob | internal/policy/match.go:27-61 | the compiled expression matches a name exactly when the glob does, its wildcards stopping at newlines; so on names without a newline exactly when the glob does |
| Policy.FirstMatchWins | internal/policy/policy.go:78-88 | the deciding rule is the first one that matches, and there is none only if no rule matches |
| Policy.DecideExactly | internal/policy/policy.go:78-106 | the first rule that is a catch-all, or has a condition and meets all it has, the severity being the finding's and the glob one for its pattern's name, decides with its action and name; without one the finding is warned about |
| Provider.Provider.Set | internal/policy/provider.go:26-27 | the cell holds what was last set |
| Provider.Provider.Get | internal/policy/provider.go:23-24 | a read returns the policy set last |
| SecretScan.ScanTexts | internal/stage/secretscan/stage.go:105-120 | the loop over the segments collects the located findings that `EndToEnd.FoundExactly` describes |
| SecretScan.Stage.Process | internal/stage/secretscan/stage.go:90-133 | the decision, the body and the findings that the stage leaves, on every path |
| SecretScan.Stage.DecideWithFlag | internal/stage/secretscan/stage.go:135-175 | blocks exactly when the flag is set and some finding is high |
| SecretScan.Stage.DecideWithPolicy | internal/stage/secretscan/stage.go:177-288 | a blocking finding or a failed redaction blocks; otherwise the body is replaced when something is to be redacted |
| SecretScan.Stage.Sort | internal/stage/secretscan/stage.go:194-241 | what is kept, whether anything blocks, and one group of spans for each segment with something to redact |
| SecretScan.Stage.Collect | internal/stage/secretscan/stage.go:261-266 | the redactions are listed in first-seen order |
| EndToEnd.FoundExactly | internal/stage/secretscan/stage.go:105-120 | a finding is raised for a request if and only if a pattern detects it in a segment of the body that is valid UTF-8, and it is raised with that segment |
| EndToEnd.KeptExactly | internal/stage/secretscan/stage.go:194-241 | the findings recorded are exactly those not allowed, each with the rule that decided it |
| EndToEnd.StageDecidesExactly | internal/stage/secretscan/stage.go:177-288 | under a policy the stage blocks if and only if a finding detected in the body is decided to block, or one is to be redacted and that fails; it replaces the body if and only if one is to be redacted and neither holds; else the body stays |
| EndToEnd.FlagDecidesExactly | internal/stage/secretscan/stage.go:135-175 | without a policy the stage blocks if and only if blocking is switched on and a finding of high severity is detected in the body, which it never changes |
| EndToEnd.GroupingIsExact | internal/stage/secretscan/stage.go:190-266 | the redactions have pairwise distinct keys, one for each segment with findings, and their spans are exactly the multiset of redact-decided spans |
| EndToEnd.KeysGrow | internal/stage/secretscan/stage.go:217-222 | the keys stay in first-seen order |
| EndToEnd.MaskedByGroup | internal/parser/redact.go:516-534 | each text is masked by at most one redaction, with all the spans of its segment, from the unmasked text |
| EndToEnd.DisjointFindingsExact | internal/parser/redact.go:225-238 | a segment whose findings are disjoint becomes its left-to-right masking |
| EndToEnd.SegmentsNotEmpty | internal/parser/anthropic.go:30-50 | no parsed segment is empty, so redactions of segments never name an empty text |
| EndToEnd.RedactedBodyIsSanitised | internal/stage/secretscan/stage.go:259-276 | a redacted body parses into the same segments, none of which keeps a byte that a redact-decided finding covers |
| EndToEnd.StageSanitises | internal/stage/secretscan/stage.go:181-287 | under a policy a block-decided finding or a failed redaction gives Block; else the new body is sanitised, or untouched when nothing is to be redacted |
| Pipeline.Chain.Run | internal/pipeline/chain.go:40-60 | Block ends the chain, Modify is remembered, a stage that fails counts as Continue |
| Pipeline.Handle | internal/proxy/upstream.go:102-120 | a blocked request is not forwarded; any other is, with the body its metadata holds |
| Pipeline.HandledExactly | internal/proxy/upstream.go:102-120 | a request is refused if and only if some stage it reaches blocks it; any other is forwarded with the body the stages leave |
| Pipeline.ForwardedIsEdited | internal/pipeline/chain.go:40-60 | with one stage that edits bodies, what is forwarded is what that stage left, and it did not block |
| EndToEnd.NothingRedactableIsForwarded | internal/proxy/upstream.go:108-120 | for every request, told by what the patterns detect in the segments of its body: it is refused if and only if another stage blocks it, a finding is decided to block, or one is to be redacted and that fails; what is forwarded parses into the same segments, none of which keeps a byte of a finding to be redacted, and with nothing to redact it is the body as it came |
| HttpSink.BackoffClosedForm | internal/audit/httpsink.go:182-197 | after k failures the delay is the base times two to the k, capped at a minute |
| HttpSink.BackoffBounded | internal/audit/httpsink.go:182-197 | for every base whose double is an int64 the delay stays positive and bounded, and doubling never overflows |
| HttpSink.HttpSink.Finalize | internal/audit/httpsink.go:169-180 | the current lines become the newest batch, and a full buffer then loses its oldest and nothing else |
| HttpSink.HttpSink.DrainOne | internal/audit/httpsink.go:183-195 | the oldest body is POSTed; accepted it leaves the buffer and resets the backoff, refused it stays, arms the timer and doubles the backoff |
| HttpSink.HttpSink.TryDrain | internal/audit/httpsink.go:182-197 | the buffered bodies are POSTed oldest first until one is refused or none is left |
| HttpSink.DrainPosts | internal/audit/httpsink.go:182-197 | which bodies a pass POSTs, in which order and with which answers, and what delay a refusal arms |
| HttpSink.HttpSink.MaybeDrain | internal/audit/httpsink.go:201-205 | nothing happens while a backoff is being waited out; otherwise a pass is made |
| HttpSink.HttpSink.OnLine | internal/audit/httpsink.go:209-214 | the line joins the current ones; a full batch is finalized, and delivered at once unless a retry is outstanding |
| HttpSink.HttpSink.OnFlushTick | internal/audit/httpsink.go:215-219 | the same for a partial batch |
| HttpSink.HttpSink.OnRetryTimer | internal/audit/httpsink.go:220-221 | the timer's firing is recorded and leads to a pass at once |
| HttpSink.StepKeepsValid | internal/audit/httpsink.go:207-221 | every event keeps: each line in one place, the buffer the undelivered suffix of the batches, what the collector accepted the delivered batches in order, losses and buffer bounded, a retry outstanding exactly when a batch is, the backoff following the failures; and cuts batches where it should |
| HttpSink.TimerLeadsToPost | internal/audit/httpsink.go:220-221 | from every state that waits for a retry the timer's firing is followed at once by a POST of the oldest undelivered batch, and leaves none undelivered when every POST of the pass is accepted |
| HttpSink.StepLeadsTo | internal/audit/httpsink.go:207-221 | for every event: while a retry is outstanding only its firing leads to a POST; while none is, a batch is POSTed as soon as it is finalized |
| HttpSink.RunLeadsTo | internal/audit/httpsink.go:207-221 | this at every event of every run, with one firing recorded for each timer event that met an outstanding retry |
| HttpSink.HttpSink.OnDone | internal/audit/httpsink.go:222-240 | the queued lines join the current ones, which become the last batch, and the final pass is made |
| HttpSink.HttpSink.FinalDrain | internal/audit/httpsink.go:249-270 | one POST for each remaining batch, and the reported count is the number dropped |
| HttpSink.PassIsFinal | internal/audit/httpsink.go:249-270 | the final pass POSTs as many of the remaining bodies as the time allows, oldest first, and drops exactly those refused or not offered |
| HttpSink.ShutDownKeeps | internal/audit/httpsink.go:222-240 | after shutdown every line, the queued ones included, is in a finalized batch and every batch has one fate |
| HttpSink.EveryRun | internal/audit/httpsink.go:155-243 | for every run: the batches are exactly those the events cut the lines into, hold every line in order, and each has one fate; the bodies that POSTs got accepted are the delivered batches in finalization order; until shutdown a batch is dropped only when as many newer ones as the buffer holds have come, and no POST follows a failure before the timer fires; and each firing of an outstanding retry is recorded once and followed at once by a POST of the oldest undelivered batch |
| HttpSink.Run | internal/audit/httpsink.go:155-243 | the event loop makes such a run, step by step, and then shuts down |
| Shutdown.StepKeepsInv | internal/audit/writer.go:99-168 | every step of every party keeps: sent is consumed followed by queued, on each channel |
| Shutdown.OfferIsSent | internal/audit/writer.go:99-124 | an item offered before the flag is set is sent when its channel has room and dropped only when it is full |
| Shutdown.QueuedIsReceived | internal/audit/writer.go:144-168 | a runner that has not exited can always take the oldest queued item |
| Shutdown.EverythingSentBeforeDoneIsConsumed | internal/audit/writer.go:132-168 | in every run that closes done and ends with Close returned, what had been sent before done was closed is a prefix of what has been consumed, which is a prefix of what was sent, on each channel |
| Shutdown.MarkIsFinal | internal/audit/writer.go:132-141 | what had been sent when done was closed is fixed from then on |
| Shutdown.DrainTerminates | internal/audit/httpsink.go:222-240 | after the flag is set the remaining sends and receives are bounded by the callers past the guard and the queued items, and the runner is never stuck |
| Shutdown.CloseCanReturn | internal/audit/writer.go:132-168 | from every reachable state steps of the closer and the runner alone bring Close to its return |
| Framing.ParseAuditLines | cmd/runveil/logs.go:179-195 | the loop keeps the pieces that begin with a brace and counts the other pieces that are not empty |
| Framing.LinesComeBack | cmd/runveil/logs.go:179-195 | of any lines of a file each that begins with a brace is kept in its place, and the others that are not empty are counted |
| Framing.PostedLinesComeBack | internal/audit/httpsink.go:169-175 | splitting the concatenation of any batch bodies gives back exactly their lines, none skipped |
| Remote.Reloads.OnAccept | cmd/runveil/proxy.go:200-213 | the policy is swapped, and the event records the rules before and after |
| Remote.Reloads.OnReject | cmd/runveil/proxy.go:214-225 | the policy stays, and the event records its rules |
| Remote.JudgeExactly | internal/policy/remote.go:163-198 | a reply in the 200s whose body is not empty and loads is accepted as the policy it loads to, one with any other body rejected, and everything else passed over |
| Remote.RemoteSource.Fetch | internal/policy/remote.go:95-120 | a served policy that loads is returned and nothing else is; validators and cache change only together with it |
| Remote.RemoteSource.Poll | internal/policy/remote.go:163-198 | what each kind of answer does to the validators, the cache, the active policy and the events: a served policy that loads becomes the active one, a served body that is empty or does not load adds exactly one rejected event, anything else changes nothing |
| Remote.FetchOrCache | cmd/runveil/proxy.go:262-277 | the initial policy is the fetched one when a policy that loads is served, else the cached one |
| Remote.Run | internal/policy/remote.go:144-198 | after any answers the active policy is the last accepted one, the validators came with its body, the cache holds that body when writes succeed, and each event starts from the rules the previous accepted one left |
| Remote.PollFollows | internal/policy/remote.go:163-198 | one poll keeps that agreement |
| Remote.PollServer | internal/policy/remote.go:201-216 | against a server that tags bodies and follows sections 13.1.2 and 13.1.3 of RFC 9110: after a poll that reaches it while it holds a policy that loads the active policy is that one, changed or not; a poll that ends in 304 or acceptance means the same, and any other, failed ones included, leaves it alone |
| Remote.StartWithServer | cmd/runveil/proxy.go:262-277 | start-up that reaches the server while it holds a policy that loads begins with that policy; reached or not, it establishes what the polls need |
| Remote.AlwaysSettled | internal/policy/remote.go:163-216 | in every log of answers, failures among them, the last accepted body is the policy the server held at the last poll that ended in a 304 or acceptance |
| Remote.RunWithServer | internal/policy/remote.go:144-198 | over start-up and any number of polls, of which any may fail in transport, with an error status or an unreadable body, and of a server that may change what it serves at every tick, the active policy is what the server held when a poll last ended in a 304 or acceptance, else the initial one; when the last tick reaches the server and it holds a policy that loads, that is the active one |
| Watcher.StepKeepsInv | internal/policy/watcher.go:105-167 | every step keeps: a change that was handled and not loaded has a timer, a callback or a token |
| Watcher.NoReloadIsLost | internal/policy/watcher.go:105-167 | in every run no reload is lost, loads never outnumber writes of the file, and a quiescent watcher has loaded the file as it is, even when Stop races a firing timer |
| Watcher.ComesToRest | internal/policy/watcher.go:105-152 | left alone the watcher always has a step to take until it is quiescent, and reaches that state |
| Quote.QuotedIsOneWord | internal/trust/quote.go:5-13 | for every string the shell reads the quoted form as exactly one word, that string |

## Left out

- Wire.Library.Encoded: does not model the byte-level JSON codec; a string is taken to survive encoding, so Go's replacement of invalid UTF-8 and its HTML escaping are not part of this model.
- Wire.Library.Compacted: compaction is applied once to the finished body, although every json.Marshal on the way compacts too; compacting twice is compacting once.
- Spans.ApplySpans: does not model overflow of Offset+Length, which needs spans near the largest int.
- RedactProofs.ParseAfterRedact: asks that a redaction which names an empty text has no spans. Parsed segments are never empty (`EndToEnd.SegmentsNotEmpty`), `RedactProofs.EmptyStaysEmpty` shows that this is exactly when empty texts stay empty, and `RedactProofs.NamingAnEmptyTextAddsProse` that the statement fails without it.
- Completeness.NothingIsOverlooked: is about plain bodies, because in the places listed above the redactor looks at more; for every body the segments are among the texts it looks at (`Coverage.EverySegmentVisited`).
- Detector.ScanFindsExactly: takes the matches of Go's regexp as given, up to being matches, and the Shannon entropy filter as any boolean function.
- EndToEnd.NothingRedactableIsForwarded: asks for patterns no shorter than the mask, which the built-in table meets but `AddPattern` does not enforce; for stages that return, one of which edits bodies; a stage panic is not modelled.
- HttpSink.HttpSink.FinalDrain: the time budget is given as the number of POSTs it allows for; the batches are popped one by one where the source walks over them by index.
- HttpSink.BackoffBounded: says nothing about a base backoff above half the largest int64, about 146 years, where the doubling wraps around.
- Shutdown.EverythingSentBeforeDoneIsConsumed: has one closer, because sync.Once makes further calls of Close wait for the first; writing to the file or the batch is the consumption. Channels and goroutines are steps over values, since methods of one object cannot interleave.
- Watcher.NoReloadIsLost: a load whose file cannot be read counts as a load; the debounce loop is steps over values, since its timer callbacks run concurrently with it; stops at Close and cancellation.
- Remote.Run: a cache write replaces the whole file or leaves it; the poller's ticks, its HTTP client and Close are not part of this model.
- Glob.CompiledGlobIsTheGlob: characters are single values; a name's UTF-8 encoding is not part of this model.
- Redact.RedactItem, Redact.RedactItemSlice and Redact.RedactTop: one walk with the endpoint as a parameter stands for the three functions of the source, which repeat each other.
- JSON keys are exact and unique: Go's case-insensitive matching of struct fields and duplicate keys are not modelled.
- Logging, counters kept for the log, metrics, identities and timestamps.
- ExtractToolUses and the path-scan stage: a foreign path matcher and a simple loop.
- YAML parsing and validation of policies: a policy is whatever the loader returns for a text.
- TLS, CONNECT, certificates, HTTP, sockets, file rotation and file-system notification: a POST, a GET or a file read is any of its outcomes.
- Configuration, enrollment, service units, the command line, and the formatting of logs.
