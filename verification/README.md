# A model of the serverless worker

A Dafny model of the job worker: the log buffer that feeds live log streams, the executor
that runs one container job at a time, and the text and arithmetic algorithms around them
(secret redaction, output truncation, command parsing, registry extraction, job identifiers,
port blocks). Concurrency is modelled as transition systems whose runs interleave all
goroutines and callers freely; the container runtime may answer any call in any way.
Code that works in place (the log buffer and executor objects, the insertion sort, the
tokenizer loop, the identifier buffer, the port assignment) is modelled by classes, arrays
and loops, each proved against the function or the transition system that specifies it.

`dafny verify dfyconfig.toml` checks everything.

## What is established

- **LogBuffer, LogBufferWakeups.** Every subscriber's output is a gap-free prefix of the
  accepted lines, complete when it ends uncancelled. A write wakes every waiting subscriber
  in all runs if and only if no two unfinished subscribers ever coexist; a concrete run
  with two loses a wakeup. After Close every subscriber whose consumer keeps receiving
  finishes after a bounded number of its own moves with exactly the log. A subscription
  starts at the position the buffer has reached if and only if that is its beginning. A
  cancelled subscriber is never stuck.
- **Redaction, RedactionProofs, RedactionLimits, Output.** The promise that no secret value
  remains holds for values that cannot overlap the placeholder in agreement; the result is
  then the original with secret values cut out and nothing else altered, and longest-first
  order covers every original occurrence. For a single value the exact condition is found,
  and for a value inside the placeholder the promise holds exactly for outputs that were
  clean already. Size bounds hold with and without the hypothesis.
- **JobLifecycle, JobTraces, Occupancy.** The runtime calls of a job are exactly the traces
  of one grammar, and all concern the image requested and the one container created; status,
  exit code, error message and outputs are told call by call from the answers of the
  runtime; a job holds the worker for at most the later of its timeout and the longest image
  check and pull, plus 60 s, and this bound is attained.
- **Executor, ExecutorRuns, ExecutorObject.** At most one job is unfinished and at most one
  container outstanding; acceptances and completions balance; a closed Done channel implies
  a published, unchanging result and a closed log; the clean-up runs in a fixed order; every
  log stream has a subscription of its own, which only its own client can cancel, and
  otherwise delivers the whole log; GetResult finds a result exactly when
  it should; the two output streams of a result are free of secrets that cannot overlap the
  placeholder in agreement, while error messages and live log lines are free of secrets in
  all runs if and only if the job has no non-empty secret; the end event of a log stream says
  "unknown" exactly when the job was replaced or Done is not closed yet, which an
  uncancelled client can meet. The executor object takes the steps of the transition system.
- **ParseCommand, Registry, Submission.** Parsing inverts shell quoting; a space separates
  whatever follows if and only if no quote is open; the registry is given by a two-line rule, spelt out for every reference;
  the status of a submission is characterised exactly, 409 included.
- **JobId, Ports.** Identifiers collide exactly on equal random bits; application numbers up
  to 7, and no larger bound, keep all port blocks apart.

## Where code and documentation differ

The model follows the code.

- `Subscribe` promises lines "from the current buffer position"; it starts at the first line
  (`pkg/stream/buffer.go:72`): `LogBuffer.StartsAtPositionIff`.
- `Write` promises to notify any waiting subscribers; its one-slot channel wakes one
  (`pkg/stream/buffer.go:42-46`): `LogBufferWakeups.WakeupsLostIffShared`.
- `RedactSecrets` promises that no secret value remains; that needs a condition relating the
  values to the placeholder (`pkg/executor/redaction.go:5-8`): `RedactionLimits.OneValueRemovedIff`.
- Requirement 7 wants secret values kept out of the whole result
  (`.kiro/specs/serverless-worker-api/requirements.md:108`); the error message repeats the
  runtime's words unredacted (`pkg/executor/executor.go:168`, `182`, `201`, `256`):
  `ExecutorRuns.ErrorsObtainedAreCleanIff`.
- `EffectiveTimeout` is described as a clamp; on a product that overflows it is one only in
  the case `Occupancy.ClampIsExactIff` names (`pkg/executor/config_builder.go:78-90`).
- `handleTimeout` is described as SIGTERM, wait, SIGKILL; it kills only if stopping fails
  (`pkg/executor/executor.go:312-320`).

## Model

| member | source | states |
|---|---|---|
| LogBuffer.SharedLog.Write | pkg/stream/buffer.go:27-47 | a write after Close changes nothing; otherwise the line is appended last and one token is stored, never sending on a closed channel |
| LogBuffer.SharedLog.Close | pkg/stream/buffer.go:51-61 | closes the buffer and its channel together, once, without panicking on a second call |
| LogBuffer.SharedLog.constructor | pkg/stream/buffer.go:20-24 | a new buffer is empty and open with no token |
| LogBuffer.InvNext | pkg/stream/buffer.go:66-119 | every step of any goroutine, consumer or writer keeps each subscriber's position, pending batch and output consistent with the log |
| LogBuffer.BufferOfRun | pkg/stream/buffer.go:31-39 | in every run the buffer holds exactly the lines written before the first Close, in order |
| LogBuffer.BufferGrows | pkg/stream/buffer.go:31-39 | lines are only appended, and frozen once closed |
| LogBuffer.EmittedIsPrefix | pkg/stream/buffer.go:63-119 | for any number of subscribers and any interleaving, emitted and received lines are a prefix of the accepted ones; an uncancelled end means all lines any continuation accepts |
| LogBuffer.SlicesAreInRange | pkg/stream/buffer.go:76-103 | `lines[pos:]` is never out of range |
| LogBuffer.LateSubscriber | pkg/stream/buffer.go:63-86 | for every number of lines already written, a run in which a later subscriber receives the first of them |
| LogBuffer.StartsAtPositionIff | pkg/stream/buffer.go:63-72 | subscribers only receive lines from the current buffer position on, in all runs, if and only if that position is the beginning |
| LogBufferWakeups.WakeupsLostIffShared | pkg/stream/buffer.go:26-46 | no waiting subscriber is left behind without a signal, in every run, if and only if at most one unfinished subscriber exists at a time |
| LogBufferWakeups.NoneLostNext | pkg/stream/buffer.go:95-99 | with a single live subscriber, being behind the log implies a token or a closed channel, after every step |
| LogBufferWakeups.StallingRunIsBehavior | pkg/stream/buffer.go:41-46 | a run with two subscribers in which one is stalled by the other taking the token |
| LogBufferWakeups.StalledStays | pkg/stream/buffer.go:95-99 | a stalled subscriber cannot move until a write, a close or its cancellation |
| LogBufferWakeups.SendsUnlessFull | pkg/stream/buffer.go:64-86 | sending is held up exactly while 64 lines lie unread, and gives way to a cancellation |
| LogBufferWakeups.CancelledCanEnd | pkg/stream/buffer.go:80-112 | a cancelled subscriber can end within three steps of its own goroutine from wherever it stands, nobody else doing anything |
| LogBufferWakeups.WeightNext | pkg/stream/buffer.go:80-113 | after Close each own step strictly decreases a measure that nobody else's step raises, whoever takes the stored token |
| LogBufferWakeups.CloseDelivers | pkg/stream/buffer.go:49-61 | from any reachable closed state a subscriber ends within a fixed number of own moves, one of which is open until then, and an uncancelled consumer then has exactly the log |
| Redaction.SortSecretsByValueLength | pkg/executor/redaction.go:31-43 | the swaps produce the stable arrangement by descending value length |
| Redaction.StableOrderUnique | pkg/executor/redaction.go:29-43 | there is only one stable descending arrangement |
| Redaction.StablePermutationIsPermutation | pkg/executor/redaction.go:32-33 | a stable rearrangement is a permutation |
| Redaction.OrderIsStable | pkg/executor/redaction.go:35-40 | insertion behind all entries at least as long is stable and descending |
| Redaction.RedactSecrets | pkg/executor/redaction.go:9-27 | the loop replaces each non-empty value once in that order; nothing happens without secrets or output |
| RedactionProofs.ReplaceOnPieces | pkg/executor/redaction.go:23 | for an overlap-free value, replacing in partly redacted text only ever cuts runs of original characters |
| RedactionProofs.RunsShrink | pkg/executor/redaction.go:5-8 | a replacement leaves no run of its value and creates none of another |
| RedactionProofs.RedactionIsExact | pkg/executor/redaction.go:5-27 | for overlap-free secrets the result is the original with secret values cut out and replaced, nothing else altered, and no secret value occurs in it |
| RedactionProofs.EveryOccurrenceIsCovered | pkg/executor/redaction.go:14-16 | every occurrence of a secret in the original overlaps a cut of a value at least as long; for overlap-free secrets these cuts are what the redacted text shows |
| RedactionProofs.RedactionIsIdempotent | pkg/executor/redaction.go:5-27 | a second redaction changes nothing |
| RedactionProofs.CleanIsUntouched | pkg/executor/redaction.go:18-24 | text without secrets comes back as it was |
| RedactionLimits.OneValueRemovedIff | pkg/executor/redaction.go:5-8 | for one value: it remains in no output if and only if it never starts inside the placeholder and every start before one is pre-empted by an earlier match |
| RedactionLimits.SafeAloneSuffices | pkg/executor/redaction.go:23 | under that condition no occurrence survives one replacement |
| RedactionLimits.UnsafeBreaks | pkg/executor/redaction.go:23 | without it, an output that keeps the value |
| RedactionLimits.OverlapFreeIsSafe | pkg/executor/redaction.go:5-8 | overlap-free values meet the exact condition |
| RedactionLimits.EndsOutsidePlaceholder | pkg/executor/redaction.go:5-8 | a value that neither begins nor ends with a byte of the placeholder and does not contain it is overlap-free |
| RedactionLimits.ShorterFirstLeavesRest | pkg/executor/redaction.go:14-16 | shortest first, part of the longer secret survives where longest first leaves only the placeholder |
| RedactionLimits.InsidePlaceholder | pkg/executor/redaction.go:5-8 | if some secret lies inside the placeholder, the result is free of secrets if and only if the output was |
| RedactionLimits.ClaimNeedsItsHypothesis | pkg/executor/executor.go:19 | the claim fails for the real placeholder and a three-byte secret |
| RedactionLimits.RedactionSize | pkg/executor/redaction.go:18-24 | overlap-free secrets: at most one placeholder per byte of output |
| RedactionLimits.RedactionSizeGeneral | pkg/executor/redaction.go:18-24 | in general: at most one further factor per non-empty secret |
| Output.TruncateTail | pkg/executor/output.go:17-26 | an exact suffix, as long as allowed, flagged if and only if bytes were dropped |
| Output.PublishedIsClean | pkg/executor/executor.go:235-240 | a published stream is the exact tail with secrets cut out, contains none, and is bounded in size |
| Output.PublishedSize | pkg/executor/executor.go:235-240 | the size bound without any hypothesis |
| JobLifecycle.CallKeepsInv | pkg/executor/executor.go:163-269 | whatever the runtime answers, calls, pending deferred calls and local state stay those of a script of answers |
| JobLifecycle.ProceedKeepsInv | pkg/executor/executor.go:152-161 | setting up and unwinding the deferred calls keeps them so: container removed, contexts cancelled, log closed, Done closed, in this order |
| JobLifecycle.WriteKeepsInv | pkg/executor/executor.go:324-341 | the streaming goroutine never disturbs the job goroutine, even after the log is closed |
| JobTraces.JobProgresses | pkg/executor/executor.go:151-270 | every step decreases a rank, and an unfinished job always has one to take |
| JobTraces.Drive | pkg/executor/executor.go:151-270 | every script of answers drives the goroutine to its end |
| JobTraces.TracesAreExact | pkg/executor/executor.go:151-270 | a finished job can have made a sequence of calls if and only if it is the trace of a script about the image requested |
| JobTraces.TraceShape | pkg/executor/executor.go:151-321 | each call at most once and in order; pull exactly if the image was absent; creation exactly if found or pulled; start, wait and logs exactly after the step before succeeded; stop exactly if the wait failed with its context expired; kill exactly if stopping failed; removal last, exactly if created |
| JobTraces.CallsConcernOneContainer | pkg/executor/executor.go:166-228 | no call goes to another image than the one requested or another container than the one created |
| JobTraces.ResultShape | pkg/executor/executor.go:242-269 | exit code present iff success, failed or timeout; error message non-empty iff error; timeout iff stopped; outputs are the published streams |
| JobTraces.CallsExplainResult | pkg/executor/executor.go:162-304 | call by call, what the answers say about the result: exit code of the wait, success iff it is zero, timeout with the code of the expired wait, each error message in full, outputs of the collected streams |
| JobTraces.ErrorNamesStep | pkg/executor/executor.go:164-258 | the prefix of the error message tells exactly which step failed: getting the image, creating, starting or waiting |
| JobTraces.ResultIsClean | pkg/executor/executor.go:238-240 | the output streams of a result contain no overlap-free secret, nor does the error message of a job that did not end in an error |
| JobTraces.ErrorRepeatsRuntime | pkg/executor/executor.go:178-185 | the runtime's words on a failed creation are the error message, unredacted |
| JobTraces.ErrorsAreCleanIff | pkg/executor/executor.go:163-258 | error messages are free of secrets for every behaviour of the runtime if and only if all secret values are empty |
| Occupancy.EffectiveTimeout | pkg/executor/config_builder.go:82-92 | the default without a request; never above the maximum; the smaller of request and maximum when the product fits, and otherwise the maximum or the product modulo 2^64 |
| Occupancy.ClampIsExactIff | pkg/executor/config_builder.go:78-92 | for all requests: exactly when the result is the smaller of request and maximum |
| Occupancy.RequestedTimeout | pkg/executor/config_builder.go:78-92 | without overflow it is the smaller of request and maximum |
| Occupancy.OverflowExample | pkg/executor/config_builder.go:87 | an unvalidated request whose product overflows gets a negative timeout |
| Occupancy.OccupancyBound | pkg/executor/executor.go:158-315 | with calls that respect their deadlines the worker is held at most max(timeout, image check + pull) + 60 s |
| Occupancy.OccupancyByCalls | pkg/executor/executor.go:186-321 | beyond the timeout or the image the worker is held at most 30 s for a removal, 10 s for logs, 15 s for a stop and 5 s for a kill, each only if that call was made |
| Occupancy.OccupancyIsTight | pkg/executor/executor.go:158-315 | that bound is reached for every request and configuration |
| Executor.InvNext | pkg/executor/executor.go:54-148 | every action of any caller, goroutine or stream keeps all earlier jobs done, every job and stream well-formed and their subscriptions apart, and changes nothing already published |
| Executor.AttachIsFresh | pkg/executor/executor.go:132-148 | a log stream gets a new subscription that nobody had before |
| Executor.GrowsRun | pkg/executor/executor.go:89-105 | over any stretch of a run, identities, published results and closed logs stay |
| ExecutorRuns.OneJobAtATime | pkg/executor/executor.go:25-26 | at most one unfinished job, at most one container created and not yet removed; ready iff all jobs are done |
| ExecutorRuns.SubmissionsBalance | pkg/executor/executor.go:54-85 | acceptances minus completions over any stretch equals the change of the busy flag, so there is at most one acceptance more than completions |
| ExecutorRuns.RefusedOnlyByRace | pkg/api/handlers.go:49-61 | between a positive readiness check and a refused submission another one was accepted |
| ExecutorRuns.DoneIsPublished | pkg/executor/executor.go:151-269 | Done closed implies the final result with the job's ID, which the job's calls explain, calls about its own image and container only, a closed log and attempted removal, for ever |
| ExecutorRuns.CleanUpOrder | pkg/executor/executor.go:152-196 | at every moment of every run: Done is closed only after the log, the log only after the context was cancelled, that only after the result is set and the removal attempted |
| ExecutorRuns.GetResultIff | pkg/executor/executor.go:87-105 | found exactly when the ID was current at the first half and Done closed at the second |
| ExecutorRuns.GetResultIsStable | pkg/executor/executor.go:87-105 | the same result until a later submission is accepted |
| ExecutorRuns.ResultsAreClean | pkg/executor/executor.go:238-240 | the output streams of any result a caller obtains contain no overlap-free secret of its job, nor does its error message unless the job ended in an error |
| ExecutorRuns.ResultIsObtained | pkg/executor/executor.go:89-105 | for every way the runtime can answer there is a run in which a caller obtains the result that calls for |
| ExecutorRuns.ErrorsObtainedAreCleanIff | pkg/executor/executor.go:163-258 | the error messages callers obtain are free of secrets in all runs if and only if all secret values of the job are empty |
| ExecutorRuns.JobsFinish | pkg/executor/executor.go:150-270 | at most 20 steps per job in any run, and one open until Done is closed |
| ExecutorRuns.LogIsBehavior | pkg/executor/executor.go:138-153 | each job's log goes through a run of the log buffer protocol |
| ExecutorRuns.LogContents | pkg/executor/executor.go:323-341 | a job's live log is the fetched standard output, then standard error, one line each if not empty, cut short only by the closing of the log |
| ExecutorRuns.ClientReceivesRaw | pkg/executor/executor.go:323-341 | what a log stream delivers is a prefix of the fetched streams as they are, and the whole log if it ends uncancelled |
| ExecutorRuns.StreamsAreCleanIff | pkg/executor/executor.go:323-341 | lines received from log streams are free of secrets in all runs if and only if all secret values of the job are empty |
| ExecutorRuns.StreamsAreSeparate | pkg/executor/executor.go:132-148 | two streams of one job never share a subscription |
| ExecutorRuns.CancelledByOwnClient | pkg/api/handlers.go:104-115 | a subscription is only ever cancelled by its own client |
| ExecutorRuns.StreamDelivered | pkg/api/handlers.go:104-145 | a stream that is over and was not cancelled by its own client has delivered the whole log, and the result is set |
| ExecutorRuns.EndEventMeaning | pkg/api/handlers.go:117-155 | "unknown" iff the job was replaced or Done not closed; otherwise status and exit code of the job asked for, as its calls explain them; clients that did not cancel have the whole log by then |
| ExecutorRuns.UnknownIsReachable | pkg/api/handlers.go:145-150 | an uncancelled client can be told "unknown" about the only job there was |
| ExecutorObject.Executor.Submit | pkg/executor/executor.go:54-85 | takes the Submit step of the transition system: in a reachable state it accepts iff all jobs are done, and a refusal changes nothing |
| ExecutorObject.Executor.GetResult | pkg/executor/executor.go:89-105 | answers as the transition system does: in a reachable state found iff the job asked for is current and done, and then with its identifier |
| ExecutorObject.Executor.IsReady | pkg/executor/executor.go:109-123 | answers as the transition system does: in a reachable state, whether every job ever accepted is done |
| ExecutorObject.Executor.PullImageIfNeeded | pkg/executor/executor.go:273-304 | makes the image part of a trace for the image requested and fails exactly without an image, with the right message in each case |
| ExecutorObject.Executor.HandleTimeout | pkg/executor/executor.go:307-321 | stops the container it is given, and kills it only if stopping fails |
| ExecutorObject.Executor.BuildResult | pkg/executor/executor.go:235-269 | the collected result: timeout with the exit code, error with the message of the wait, success or failed by the exit code |
| ExecutorObject.Executor.StreamContainerLogs | pkg/executor/executor.go:323-341 | one GetLogs call on the container given, then the non-empty streams in order, none of it reaching a closed log: the steps of the streaming goroutine |
| ExecutorObject.Executor.Unwind | pkg/executor/executor.go:152-196 | runs the deferred calls in exactly the reverse order, one removal iff created, of the container created |
| ExecutorObject.Executor.ExecuteJob | pkg/executor/executor.go:151-270 | for every runtime: the calls are a trace about one image and one container, they explain the result, clean-up in the fixed order, log and Done closed; the object ends in the state of a finished job of the transition system |
| ExecutorObject.ReversedAt | pkg/executor/executor.go:152-154 | the reverse order, element by element |
| ExecutorObject.CleanUpIsReversed | pkg/executor/executor.go:152-228 | the reverse order in full: collection context, removal, contexts, log, Done |
| ParseCommand.ParseCommand | pkg/executor/config_builder.go:96-124 | the flag-driven loop computes the recursive specification; the flags are never both set |
| ParseCommand.ArgumentsContent | pkg/executor/config_builder.go:96-124 | no argument is empty and together they are the command less toggling quotes and unquoted spaces |
| ParseCommand.ArgumentsSplit | pkg/executor/config_builder.go:109-113 | a space outside quotes separates: parse(a + space + b) = parse(a) + parse(b) |
| ParseCommand.SpaceSeparatesIff | pkg/executor/config_builder.go:105-113 | for every first part: a space separates it from whatever follows if and only if it leaves no quote open |
| ParseCommand.OpenQuoteJoins | pkg/executor/config_builder.go:105-108 | an example: a lone quote and a plain word after a space become one argument |
| ParseCommand.ParseUndoesQuoting | pkg/executor/config_builder.go:94-124 | any list of non-empty arguments, quoted and joined by spaces, parses back to itself |
| ParseCommand.ExpressibleArguments | pkg/executor/config_builder.go:110-121 | the argument lists some command yields are exactly those without an empty argument |
| Registry.ExtractRegistry | pkg/validator/validator.go:146-176 | the steps compute the simple rule: cut at @, text before the first slash if it looks like a host, Docker Hub otherwise |
| Registry.RegistryOfReference | pkg/validator/validator.go:146-176 | for every reference with a slash: the text before the first slash if it holds a dot or colon or is localhost, docker.io otherwise |
| Registry.RegistryOfPlainName | pkg/validator/validator.go:162-165 | every name without a slash, with or without digest, is on docker.io |
| Registry.EveryReference | pkg/validator/validator.go:146-151 | every reference is of one of these two forms |
| Registry.DeniedReference | pkg/validator/validator.go:42-48 | a reference with a slash is refused iff there is a whitelist and no entry of it matches that host or docker.io |
| Registry.StripTag | pkg/validator/validator.go:152-157 | cuts the text from the last colon on exactly if no slash follows it, which never changes the registry |
| Registry.Split | pkg/validator/validator.go:160 | parts without separators that join to the input |
| Registry.DigestIsIrrelevant | pkg/validator/validator.go:149-151 | appending a digest never changes the registry |
| Registry.TagIsIrrelevantIff | pkg/validator/validator.go:152-157 | exactly when appending a tag leaves the registry alone |
| Registry.IsRegistryWhitelisted | pkg/validator/validator.go:179-186 | finds an entry iff there is one, for any folding equivalence |
| Registry.ValidateImage | pkg/validator/validator.go:36-49 | no error iff the image is present, at most 512 long and not denied; a refusal is among the errors iff it is denied |
| Registry.ValidateJobRequest | pkg/validator/validator.go:33-101 | image errors first, then the errors of the other fields; none iff all checks pass |
| Submission.HandleSubmitJob | pkg/api/handlers.go:27-67 | 403 iff a decoded request is denied for its registry; 400 iff undecodable or otherwise invalid; 202 iff valid, ready when asked and free when submitted; 409 in all other cases |
| Submission.SubmissionAnswered | pkg/api/handlers.go:48-61 | over all runs: 202 adds the submitted request as the current, unstarted job after all others are done; 409 means an unfinished job, and after a positive readiness check another submission accepted in between |
| JobId.GenerateJobID | pkg/executor/executor.go:344-365 | the in-place construction yields the 8-4-4-4-12 text of the stamped bytes |
| JobId.HexEncodeInto | pkg/executor/executor.go:354-362 | writes two digits per byte at its place and nothing else |
| JobId.HexDigitText | pkg/executor/executor.go:354-362 | digits, then lower-case letters |
| JobId.ReadUndoesLayout | pkg/executor/executor.go:353-364 | the text form loses nothing |
| JobId.IdsCollideIff | pkg/executor/executor.go:344-351 | two draws give one identifier iff they agree on all 122 unmasked bits |
| JobId.IdsAreWellFormed | pkg/executor/executor.go:343-365 | the identifiers that can be drawn are exactly the well-formed version 4 texts |
| Ports.Environment.CalculatePorts | shared/deployApp.sh:67-83 | every port variable, named one by one, gets its number; the numbers are exactly the block, and no other variable changes |
| Ports.Environment.AssignConsecutive | shared/deployApp.sh:77-82 | the loop assigns consecutive numbers in array order |
| Ports.BlocksMeetIff | shared/deployApp.sh:39-41 | two blocks share a port iff their bases are less than 12 apart |
| Ports.SafeApplicationNumbers | shared/deployApp.sh:39-41 | all blocks are disjoint iff application numbers are bounded by 7 |
| Ports.OneApplicationIsSafe | shared/deployApp.sh:73-74 | one application never collides with itself across users |
| Ports.ConfiguredApplication | conf/deploy.ini:2 | all blocks application 8 shares ports with: application 0 of the next user, no other of its own user, none of users beyond, and one or two of each user before, given by formula |

## Left out

- The Docker and Podman clients, image and container configuration, HTTP routing, JSON and
  SSE formatting, environment reading, health probes: plumbing around the modelled core.
- Registry credentials of a pull, the container configuration of a creation, and the grace
  period and signal of a shutdown are not recorded in the calls of the model.
- Timestamps of log lines, durations in results and log messages of the worker: no clock in
  the model outside `Occupancy`, where only runtime calls take time.
- Range checks on the scalar fields of a request and the secret-name pattern: they enter
  `Registry.ValidateJobRequest` as the list of errors found on other fields.
- How a duration is printed: the image pull timeout in print is part of the configuration.
- Case folding of `strings.EqualFold` and the `%q` verb: arbitrary functions.
- `MaxOutputBytes` is taken to be non-negative; a negative value, which configuration loading
  does not reject, would slice out of range.
- Identifiers are drawn by the environment and may repeat; where it matters
  `ExecutorRuns.EndEventMeaning` states distinctness as a hypothesis.
- The answer of the streaming goroutine's own GetLogs call is unrelated to the one the result
  is built from, and its call is not part of the traces.
- A client that stops reading without cancelling: its channel fills and its subscriber waits.
- ExecutorObject.Executor.ExecuteJob: shows the goroutine without interference on its log and
  without the streaming goroutine it starts, which is `StreamContainerLogs` by itself; their
  interleavings are the subject of `Executor` and `ExecutorRuns`.
- ExecutorObject.Executor.GetResult: runs its two halves in one state; what may happen between
  them is in `ExecutorRuns.GetResultIff`.
- RedactionProofs.RedactionIsExact: the hypothesis is sufficient for several secrets; the
  exact condition is given for one value, and for any list in which a value lies inside the
  placeholder.
- How bash reads USER_ID as a number (a leading zero means octal) and the wrap-around of its
  64-bit arithmetic.
- The rest of the deployment script, prompts, and web files.
