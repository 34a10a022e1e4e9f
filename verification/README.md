# A verified model of the runner pipeline

The server keeps one child process (a runner) per model, sends it prompts over HTTP, and streams the
tokens it answers with to clients. This project models that path in Dafny and proves what it
guarantees. `dafny verify dfyconfig.toml` checks everything.

A generated token crosses four stages, one group of modules each, and `Fidelity` puts them together:

- `TokenStreams`: the runner's token loop, and the generator thread and content provider that share a
  `TokenStream`, as a transition system whose steps are the critical sections and the writes between them.
- `Json`, `Lines`: one JSON record a line. Escaping, a reader for section 7 of RFC 8259, UTF-8 validity,
  and newline framing.
- `Ndjson`: the manager's incremental parser `stream_parse_chunk`, its batch sibling `parse_ndjson`, and
  when the two agree.
- `IoPipes`, `Sse`, `Events`: the byte pipe with its sticky abort, the thread that feeds it events,
  and the client's decoder, section 9.2.6 of the WHATWG HTML Living Standard.

The rest of the server and its client:

- `Processes`, `Registry`, `RunnerManagers`, `WindowsHandles`: the runner lifecycle, the stop protocol,
  and the table of process handles on Windows. `Registry` has the operations as values, `RunnerManagers`
  the class that performs them in place.
- `CommandLine`: command trees, `App::parse` and `App::find_deep`.
- `Chat`: the history of the interactive chat and the stripping of markers from replies.

Classes and loops of the program are classes and loops here, each proved to compute a reference
function; the properties are proved of those functions and of runs of them.

## What is assumed

- A `string` is a byte string, one `char` a byte.
- The JSON library: `parse` is a parameter that inverts `dump` on the two records a runner sends, for
  valid UTF-8 (`Json.Inverts`); `dump` throws on anything else, and escapes as `escape_json` does. Errors
  of its accessors are modelled, including `value` on a field of another type.
- The HTTP library does not call a content receiver or provider again after it returned false, and calls
  the completion callback once the provider has. How a transfer ends is a parameter (`Ndjson.Transfer`).
- The callback, sampling, health probes, liveness, pids and ports are oracles, quantified over. A new
  process does not get the pid of an unreaped child, and a wait for a child succeeds.
- The order in which `stop_all` walks the registry is any enumeration of its names.
- Each method of `RunnerManager` holds its mutex throughout, so it is one step.

## What the proofs found

- A character whose bytes come in two tokens ends the stream: each piece is dumped by itself, and `dump`
  rejects half a character (`SplitCharacterBreaksTheStream`). `PiecesDecideDelivery` has the exact condition.
- An exception in the generator is reported as a normal final record whose text is its message, so the
  call succeeds with that text (`ExceptionReportedAsText`; `FinalTextIsConcat` has the exact condition).
- A final record that arrives without its newline is lost by the stream parser, and the call succeeds with
  an empty text (`UnterminatedDoneIsLost`); `UnterminatedAgreement` says for which last lines it matters.
- A `token` that is not a string is an error for the stream parser only (`NumberTokenDivides`); `AgreementExactly`
  says for which bodies the two parsers agree.
- `[DONE]` can be the very write that overflows the pipe, and is then delivered although the pipe is
  aborted (`DoneCanOverflow`); so it does not imply an unaborted pipe. `DoneWhenOpen` and `UnreadResponse`
  have the exact condition.
- An option declared short name first loses its long name (`DeclarationOrder`).
- With no arguments the default command is returned without checking what it requires
  (`RequiredAreSupplied`). Surplus positional arguments are ignored (`ParseMeaning`).
- A one-digit negative number is taken for a short option, a longer one is not, and `--` does not end the
  options (`ShapesDecide`). A value given to a flag with `=` is dropped (`FlagForm`).
- As the first argument after the command words, `--help` and `-h` ask for help before any option of that
  name is looked up; this is the only exception to the equivalence of option forms.
- Stripping a later marker can create an earlier one (`StrippingCanMakeAMarker`); `StripLeavesNone` says exactly
  when, and `ApartStripsClean` when it cannot. A reply body with neither choices nor error is kept as an
  empty reply.
- The comment at `include/cllama/core/runner_mgr.hpp:66` describes a stop as SIGTERM and a wait; the code
  adds SIGKILL after 50 polls, and the model follows the code.

## Model

| member | source | states |
|---|---|---|
| `Fidelity.PiecesDecideDelivery` | src/runner/llama_runner.cpp:210-288 | Main result, generator to callback. For every interleaving, every finished run whose connection held and every chunking of its bytes, with a generator that throws nothing: `got_done` holds if and only if each generated piece is by itself valid UTF-8, and then the callback got exactly those pieces, once each and in order, and the text is their concatenation |
| `Fidelity.EndToEnd` | src/core/runner_mgr.cpp:329-363 | The same where the generator may throw: if everything it produced can be dumped and the callback never stops the stream, the stream ends with `leftover` empty, no error, all pieces delivered, and either call returns the generator's final text |
| `Fidelity.DeliveredOrStopped` | src/core/runner_mgr.cpp:329-363 | With any callback: that outcome, or the callback's last verdict was not to go on |
| `Fidelity.ExceptionReportedAsText` | src/runner/llama_runner.cpp:283-288 | For a generator that emits one piece and then throws: in every finished run whose connection held, and every chunking, both calls succeed with the exception's message as the text |
| `Fidelity.ExceptionRunExists` | src/runner/llama_runner.cpp:283-288 | Such a run exists |
| `Fidelity.EndToEndWithReader` | src/core/runner_mgr.cpp:329-363 | The same with the assumption on the JSON library replaced by a concrete reader of the two records |
| `Fidelity.PrefixSafety` | src/core/runner_mgr.cpp:329-363 | With no assumption on the run (writes may fail, connections drop, any prefix of the bytes arrive, the callback stop or throw): the callback was called with a prefix of the generated pieces; `got_done` only if the final record was sent and all pieces were delivered; an error only if the callback threw |
| `Fidelity.SamplerToClient` | include/cllama/api/oatpp_router.hpp:254-400 | Across all four stages, at either endpoint, with the callback's verdict the result of that token's write to the pipe: what a client has read is at any moment a prefix of what `on_token` was called with, which is a prefix of the generated pieces; after a finished run whose connection held, at the end of a stream the pipe never refused, exactly those pieces |
| `Fidelity.StoppedByThePipe` | include/cllama/api/oatpp_router.hpp:370-384 | The pipe's callback stops a stream only if the pipe was aborted |
| `Fidelity.WireIsTranscript` | src/runner/llama_runner.cpp:210-242 | In every reachable state the bytes sent are a prefix of the newline-framed records of the tokens taken off the queue (and of the final record, once it was handed to the sink) |
| `Fidelity.CompleteWire` | src/runner/llama_runner.cpp:219-238 | A finished run whose connection held, of text that can be dumped, has sent exactly one record per piece and then the final record |
| `Fidelity.ReplayTranscript` | src/core/runner_mgr.cpp:344-352 | Any callback, on any beginning of a transcript, sees a prefix of its tokens; on all of it, all of them with the final text unless it stops the stream |
| `Fidelity.CallsArePrefix` | src/core/runner_mgr.cpp:344-347 | Calling back token by token, stopping at the first refusal, never skips, repeats or reorders |
| `Ndjson.StreamCtx.ParseChunk` | src/core/runner_mgr.cpp:329-363 | The loop over `pos` on the mutable context leaves exactly the state and verdict of the reference `Feed`: all terminated lines run in order up to the first that stops, `leftover` trimmed on true and left untrimmed on false |
| `Ndjson.StreamCtx.ParseLines` | src/core/runner_mgr.cpp:331-361 | The scan visits exactly the terminated lines of `leftover`, in order, and ends where the first unterminated one starts |
| `Ndjson.StreamCtx.Record` | src/core/runner_mgr.cpp:338-359 | One line: unparsable, `error` (a string or not), `token` with a callback that accepts, refuses or throws, a bad `token`, a bad `done`, a bad `text`: each field and the verdict afterwards |
| `Ndjson.ChunkInvariance` | src/core/runner_mgr.cpp:329-363 | For every split of the bytes, fed up to the first false: verdict, callback trace, error, message, `got_done` and `full_text` are those of one single chunk; while true, `leftover` is what follows the last newline |
| `Ndjson.RefusedIsKept` | src/core/runner_mgr.cpp:334-361 | A refused chunk leaves everything since the last accepted one in `leftover`; an accepted one leaves no newline there |
| `Ndjson.WholeBody` | src/core/runner_mgr.cpp:329-363 | From a fresh context the outcome of any chunking is that of running the body's terminated lines |
| `Ndjson.StoppingCutsTheTrace` | src/core/runner_mgr.cpp:346 | A callback that stops the stream has seen a prefix of what a patient one sees, and is not called again |
| `Ndjson.CallsAreTokens` | src/core/runner_mgr.cpp:344-347 | Of lines all accepted, the callback gets every token, whatever else its record holds; without a callback none |
| `Ndjson.ParseNdjson` | src/core/runner_mgr.cpp:292-309 | The `getline` loop computes the reference `Batch`, the unterminated last line included |
| `Ndjson.LineMeans` | src/core/runner_mgr.cpp:297-306 | A line leaves the batch text as it is, sets it, or fails with the runner's message or the fixed one, and exactly when |
| `Ndjson.ErrorIsReported` | src/core/runner_mgr.cpp:338-343 | An error record, or a line that cannot be read, after accepted lines ends the stream, whatever follows, and the call fails with the runner's message or the fixed one |
| `Ndjson.StreamMeansBatch` | src/core/runner_mgr.cpp:292-363 | What the stream parser reports of any body in any chunks: the batch result of its terminated lines, except that a `token` that is not a string, met first, is an error only for the stream |
| `Ndjson.AgreementExactly` | src/core/runner_mgr.cpp:292-363 | For every body and chunking, exactly when the two report the same: if a token that is not a string is met first, when the body fails in batch with the same message; otherwise when the terminated lines fail or the unterminated last line is harmless |
| `Ndjson.BatchStreamAgreement` | src/core/runner_mgr.cpp:292-363 | On newline-terminated bodies whose tokens are strings the two parsers agree: success with equal text, failure with equal message |
| `Ndjson.TerminatedAgreement` | src/core/runner_mgr.cpp:292-363 | On any newline-terminated body they agree if and only if no such token is met first, or the batch parser fails with the same message |
| `Ndjson.NumberTokenDivides` | src/core/runner_mgr.cpp:344-345 | Concrete disagreement: a `token` that is a number, which the batch parser takes for an empty text and the stream reports |
| `Ndjson.UnterminatedAgreement` | src/core/runner_mgr.cpp:361 | With an unterminated last line they agree if and only if the lines before it fail, or that line is empty, or parses to an object without `error` and with at most a boolean `done`, which, if true, comes with no `text` or the text so far |
| `Ndjson.HarmlessMeansUnchanged` | src/core/runner_mgr.cpp:297-304 | That description of the record is exactly what leaves the batch parser's text unchanged |
| `Ndjson.UnterminatedDoneIsLost` | src/core/runner_mgr.cpp:336 | Concrete disagreement: a `done` record without its newline gives its text in batch and the empty text, as a success, in the stream |
| `Ndjson.CallResult` | src/core/runner_mgr.cpp:458-475 | What a streaming call returns: success exactly for status 200 without a parser error; a failed transfer hides the runner's error, and a status other than 200 is in the message, with each endpoint's own wording |
| `Lines.SplitUnique` | src/core/runner_mgr.cpp:332-336 | Splitting at newlines is the unique way to write bytes as newline-free lines and a newline-free rest |
| `Lines.LinesFromIsSplit` | src/core/runner_mgr.cpp:332-336 | Scanning from any `pos` finds the lines of the rest of the buffer |
| `Lines.SplitAppend` | src/core/runner_mgr.cpp:330 | Splitting in two steps with the carried-over rest is splitting at once |
| `Lines.PrefixLines` | src/core/runner_mgr.cpp:332-336 | The terminated lines of any byte prefix of framed lines are a prefix of those lines |
| `TokenStreams.Generate` | src/runner/llama_runner.cpp:47-98 | The token loop, every exit included: what `on_token` is called with, the text returned or the exception it leaves by, and at most `max_tokens` (256 if not positive) pieces |
| `TokenStreams.SampleLoop` | src/runner/llama_runner.cpp:79-93 | The loop itself: stops at end of generation, at the limit, after a failed decode, or on an exception; the output is the concatenation of the pieces |
| `TokenStreams.FinalTextIsConcat` | src/runner/llama_runner.cpp:277-288 | The text of the final record is the concatenation of the pieces if and only if nothing is thrown, or the message of what is thrown equals it; after an exception it is the message |
| `TokenStreams.PiecesAre` | src/runner/llama_runner.cpp:79-93 | The pieces, round by round: the nonempty texts sampled up to and with the first round that is not followed by another, so a token whose decode fails is still delivered; the limit is `max_tokens`, or 256 if that is not positive; and what is thrown is what that round throws |
| `TokenStreams.TokenStream.Push` | src/runner/llama_runner.cpp:271-276 | `on_token`: appends unless the stream was aborted |
| `TokenStreams.TokenStream.Publish` | src/runner/llama_runner.cpp:278-287 | The generator publishes its text (or the exception's message) and `done` |
| `TokenStreams.TokenStream.MarkAborted` | src/runner/llama_runner.cpp:244-250 | The completion callback sets `aborted` |
| `TokenStreams.TokenStream.EnterProvider` | src/runner/llama_runner.cpp:212-217 | From taking or regaining the lock at the wait to where it is next released: sleep, refuse, or drain |
| `TokenStreams.TokenStream.DrainLoopHead` | src/runner/llama_runner.cpp:219-240 | The head of the drain loop: next token (dumped before it is popped), final record, or return |
| `TokenStreams.CallConsumes` | src/runner/llama_runner.cpp:211-241 | A provider call that gets past its wait takes one token off the queue or ends the stream; it never returns true at once |
| `TokenStreams.AbortedTakesNothing` | src/runner/llama_runner.cpp:271-276 | A push joins the queue at its end, and after an abort does nothing; the abort itself leaves the queue |
| `TokenStreams.AbortedExactly` | src/runner/llama_runner.cpp:223-228 | Over runs the stream is aborted if and only if a failed write or the completion callback has said so; it is whenever a token was lost or the provider is released |
| `TokenStreams.AbortFreezes` | src/runner/llama_runner.cpp:244-250 | In every continuation of a run with an aborted stream, however much is still generated, nothing joins or leaves the queue and nothing more is sent |
| `TokenStreams.CallsProgress` | src/runner/llama_runner.cpp:211-241 | Over runs: once a call has been made, the provider is back to be called again, or back at its drain loop, only after another token was written |
| `TokenStreams.StepKeepsInv` | src/runner/llama_runner.cpp:210-288 | Every step of generator, provider, network and library keeps the invariant, though the lock is released around each write |
| `TokenStreams.ReachableInv` | src/runner/llama_runner.cpp:210-288 | The invariant holds after every run |
| `TokenStreams.TokensConserved` | src/runner/llama_runner.cpp:219-231 | In every reachable state: tokens written, then the at most one in flight, then the queue, are the tokens pushed, a prefix of those generated; all of them unless aborted; all written once the final record is sent |
| `TokenStreams.DoneComesLast` | src/runner/llama_runner.cpp:233-238 | After the final record no run sends another byte, and none sends it twice |
| `TokenStreams.DeadlockFreedom` | src/runner/llama_runner.cpp:212-215 | A sleeping provider has nothing to wake for and a generator still to finish; some thread can step until both are over; no wake-up is missed |
| `TokenStreams.StepDecreases` | src/runner/llama_runner.cpp:80-93 | A measure built from the token limit, the queue and the two program counters falls at every step other than a spurious wake-up |
| `TokenStreams.RunsAreBounded` | src/runner/llama_runner.cpp:80-93 | Every run has at most 8 * limit + 28 steps, plus 5 for each spurious wake-up |
| `TokenStreams.CompletionNeedsUtf8` | src/runner/llama_runner.cpp:219-238 | A finished run whose connection held sent its final record if and only if every piece and the final text are valid UTF-8; otherwise the provider left by the exception of `dump` |
| `TokenStreams.PiecesDecide` | src/runner/llama_runner.cpp:82-93 | When nothing is thrown that condition is about the pieces alone |
| `TokenStreams.SplitCharacterBreaksTheStream` | src/runner/llama_runner.cpp:85-89 | Concrete input: one two-byte character in two pieces makes a valid text whose stream is cut off at the first piece |
| `Json.EscapeJson` | include/cllama/api/oatpp_router.hpp:112-134 | The byte-by-byte loop computes the escaping function |
| `Json.EscapeRoundTrip` | include/cllama/api/cpprest_router.hpp:44-67 | A reader for section 7 of RFC 8259 inverts escaping on every byte string and stops at the writer's quote, so no quote in the output is unescaped |
| `Json.EscapePrintable` | include/cllama/api/cpprest_router.hpp:44-67 | Escaped output has no byte below 0x20 |
| `Json.EscapeForm` | include/cllama/api/cpprest_router.hpp:44-67 | Which characters are left alone, which get a two-byte escape, and which six bytes in lower case |
| `Json.SignedReads` | src/core/runner_mgr.cpp:464-468 | A number printed reads back, without leading zeros |
| `Json.EscapeAppend` | include/cllama/api/cpprest_router.hpp:44-67 | Escaping distributes over concatenation |
| `Json.RecordsStayOnOneLine` | src/runner/llama_runner.cpp:220-234 | Neither record of the wire contains a newline, whatever the text |
| `Json.ReadRecordInverts` | src/core/runner_mgr.cpp:339 | A concrete reader of the two records inverts both, so the assumption made of the JSON library can be met |
| `IoPipes.Write` | include/cllama/api/oatpp_router.hpp:50-59 | What is inserted, when the pipe aborts, and what is reported: the overflowing write is inserted and reports false |
| `IoPipes.Read` | include/cllama/api/oatpp_router.hpp:38-47 | A read waits if and only if the buffer is empty and the pipe open; otherwise it takes at most `count` bytes off the front, all of them if they fit, and changes nothing else |
| `IoPipes.ReadsAreBounded` | include/cllama/api/oatpp_router.hpp:42-44 | Over every run a read delivers the lesser of what it asks for and what is there, and nothing else delivers anything |
| `IoPipes.IOPipe.WriteAll` | include/cllama/api/oatpp_router.hpp:50-59 | `write`, on the fields |
| `IoPipes.IOPipe.ReadSome` | include/cllama/api/oatpp_router.hpp:38-47 | `read`: waits, ends, or takes at most `count` bytes off the front |
| `IoPipes.IOPipe.Close` | include/cllama/api/oatpp_router.hpp:61-65 | `close` sets `done_` and nothing else |
| `IoPipes.PipeConservation` | include/cllama/api/oatpp_router.hpp:38-65 | Over every run: bytes read, then the buffer, are the inserted writes; those are a prefix of the attempted ones; the buffer is within `MAX_BUFFER` while not aborted and at most one write over it afterwards |
| `IoPipes.RefusalIsFinal` | include/cllama/api/oatpp_router.hpp:52 | Once aborted or closed the pipe inserts nothing more |
| `IoPipes.EndIsFinal` | include/cllama/api/oatpp_router.hpp:41 | Once a read that asked for bytes got none, everything inserted has been delivered and every later read returns none |
| `Sse.TakeFrame` | include/cllama/api/oatpp_router.hpp:382 | A decoder for section 9.2.6 of the WHATWG HTML Living Standard dispatches exactly the payload of a frame, and nothing before its last byte |
| `Sse.DecodeFrames` | include/cllama/api/oatpp_router.hpp:352-400 | That decoder inverts framing: any byte prefix decodes to a prefix of the payloads, the whole to all of them |
| `Sse.PlayKeeps` | include/cllama/api/oatpp_router.hpp:352-400 | The producer's invariant holds over every interleaving with reads of any sizes |
| `Sse.ClientTranscript` | include/cllama/api/oatpp_router.hpp:254-287 | Over every interleaving: what is inserted is whole frames from the start of role, tokens, error, `[DONE]`; the client has decoded a prefix of them, and all of them at the end of the stream |
| `Sse.ScriptComplete` | include/cllama/api/oatpp_router.hpp:386-399 | Everything has been inserted if and only if the producer got past its last write uncut with every write inserted; after `on_token` returned false nothing after the tokens is |
| `Sse.DoneMeansComplete` | include/cllama/api/oatpp_router.hpp:386-399 | If no other payload is `[DONE]`, its frame is inserted at most once, last, and if and only if everything is; which is when the producer got past it uncut with every write inserted. A client that decoded it has decoded everything |
| `Sse.ScriptClient` | include/cllama/api/oatpp_router.hpp:38-65 | A client reads `[DONE]` at most once and last, and after it, or at the end of a stream the pipe never refused, has read the whole script |
| `Sse.EveryResponseEnds` | include/cllama/api/oatpp_router.hpp:398-399 | Over every interleaving the producer closes the pipe within five turns more than there are tokens, whatever was refused, and reads then reach the end of the stream |
| `Sse.DoneWhenOpen` | include/cllama/api/oatpp_router.hpp:398 | The last write is inserted if and only if the pipe was not aborted before it; the pipe then stays unaborted if and only if those 14 bytes fit under the mark |
| `Sse.UnreadResponse` | include/cllama/api/oatpp_router.hpp:50-59 | When nobody reads and all but `[DONE]` fits under the mark, `[DONE]` is still inserted, and the pipe ends up aborted if and only if it does not fit |
| `Events.DoneCanOverflow` | include/cllama/api/oatpp_router.hpp:50-59 | Concrete tokens, of one and two letters, with which that happens to a chat with any id and model name of ordinary length |
| `Events.ResponseClient` | include/cllama/api/oatpp_router.hpp:254-400 | A client of either endpoint at any moment has read a prefix of the tokens, and no error but the call's; it reads `[DONE]` at most once, last; and after it, or at the end of a stream the pipe never refused, has read the whole response |
| `Events.FullIsWhole` | include/cllama/api/oatpp_router.hpp:352-399 | The whole response, as read back: a chat's role event first; exactly those tokens; exactly one error event, with the message and just before `[DONE]`, if the call failed, and none if it did not; and `[DONE]` last |
| `Events.EventsRead` | include/cllama/api/oatpp_router.hpp:355-381 | A token event reads back as its token, creation time, id and model name, and a role event as the last three |
| `Fidelity.FailureIsTold` | include/cllama/api/oatpp_router.hpp:386-391 | A call that fails is never an empty success: a client that has read the response has read exactly the message the call failed with, whether no runner could be had, the transfer failed, or the runner reported an error |
| `Fidelity.NoCallAfterRefusal` | include/cllama/api/oatpp_router.hpp:370-384 | `on_token` is not called again after a write that was refused, and the receiver then returns false |
| `Events.EndpointsAreWellWorded` | include/cllama/api/oatpp_router.hpp:258-381 | The fixed text of either endpoint's events has what that needs: no line break, and token events that differ from role and error events |
| `Events.ContentsOfResponse` | include/cllama/api/oatpp_router.hpp:370-384 | The token contents of a full transcript are the tokens; role, error and `[DONE]` add none |
| `Events.ContentOfToken` | include/cllama/api/oatpp_router.hpp:258-270 | A token event's content reads back as the token, for any bytes |
| `Events.EventsAreWhole` | include/cllama/api/oatpp_router.hpp:355-397 | No token, model name or message puts a line break into an event, and no event is `[DONE]` |
| `Events.ErrorFrameIsOneEvent` | include/cllama/api/cpprest_router.hpp:239-242 | The error frame decodes to exactly one event whose message reads back, for any bytes |
| `Processes.StopWithTimeout` | src/core/runner_mgr.cpp:235-247 | SIGTERM, polls and wait or SIGKILL and wait: the exact log for the given liveness answers, and the child reaped |
| `Processes.StopProtocol` | src/core/runner_mgr.cpp:235-247 | For every liveness oracle, the log in closed form: SIGTERM, the polls up to the first dead one, or all 50 and then SIGKILL, and one wait, last; SIGKILL if and only if all 50 polls found the process alive |
| `Registry.StopReports` | src/core/runner_mgr.cpp:249-262 | `stop` of a registered runner: SIGTERM to its process first, SIGKILL if and only if 50 polls all find it alive, one wait for it, last, and its entry gone; for any other name nothing |
| `Registry.EveryWaitIsAnnounced` | src/core/runner_mgr.cpp:133-279 | Over every run each wait comes after a SIGTERM to that pid, and that after its spawn, with no other spawn or wait of it in between |
| `Registry.StopAllReports` | src/core/runner_mgr.cpp:264-279 | `stop_all` sends one SIGTERM to each registered pid in turn before anything else, and SIGKILL to exactly those that all of their own 50 polls find alive |
| `RunnerManagers.RunnerManager.SpawnRunner` | src/core/runner_mgr.cpp:97-144 | Spawn, up to 100 health probes, then registered, or killed and reaped with the map untouched |
| `RunnerManagers.RunnerManager.GetOrStart` | src/core/runner_mgr.cpp:146-165 | An existing entry is returned as it is; otherwise file, port and spawn are tried in turn |
| `RunnerManagers.RunnerManager.Start` | src/core/runner_mgr.cpp:174-185 | `start` and its error |
| `RunnerManagers.RunnerManager.StartRunner` | src/core/runner_mgr.cpp:187-233 | `start_runner`: each refusal, in the order the code checks, and the binary chosen |
| `RunnerManagers.RunnerManager.Stop` | src/core/runner_mgr.cpp:249-262 | `stop`: nothing for an unknown name; otherwise the stop protocol and the entry gone |
| `RunnerManagers.RunnerManager.SignalAll` | src/core/runner_mgr.cpp:268-271 | First pass of `stop_all`: one SIGTERM to every registered pid, none reaped |
| `RunnerManagers.RunnerManager.ReapAll` | src/core/runner_mgr.cpp:273-276 | Second pass: the whole stop protocol for every registered pid, in turn |
| `RunnerManagers.RunnerManager.StopAll` | src/core/runner_mgr.cpp:264-279 | `stop_all`: both passes, then the registry emptied |
| `Registry.NoLeakedChildren` | src/core/runner_mgr.cpp:97-288 | Over every run of start, start_runner, proxy calls, stop and stop_all: unreaped children are exactly the registered pids, each entry is under its own name, pids are distinct, and every wait was for a child |
| `Registry.ApplyKeepsInv` | src/core/runner_mgr.cpp:97-288 | Each public operation keeps that invariant |
| `Registry.StopAllReapsAll` | src/core/runner_mgr.cpp:264-279 | After any run `stop_all` leaves no child and no entry: every pid signalled before any is waited for, then reaped, whether or not it heeds SIGTERM |
| `Registry.RegistryRefinement` | src/core/runner_mgr.cpp:133-279 | Each operation is insert-if-absent, remove, clear or nothing on the map of names to pids, and never changes a surviving entry |
| `Registry.RunRefinement` | src/core/runner_mgr.cpp:133-279 | Over every run the registry is the fold of those map operations |
| `Registry.KeepsItsProcess` | src/core/runner_mgr.cpp:146-150 | However often it is started or used, a runner keeps its entry and pid until it is stopped |
| `Registry.FailedStartLeavesNoTrace` | src/core/runner_mgr.cpp:133-138 | A start that fails leaves registry and children as they were |
| `Registry.StartRunnerReports` | src/core/runner_mgr.cpp:196-232 | Which of its four errors `start_runner` reports, exactly when; what a success leaves; and that a failure leaves registry and children as they were, signalling and reaping exactly a runner that was never healthy |
| `Registry.StartReports` | src/core/runner_mgr.cpp:146-185 | A running name gives its entry, untouched; another a new entry run by the binary chosen for it, or nothing changed; and `start` succeeds if and only if the name is registered afterwards |
| `Registry.HealthyMeansSomeProbe` | src/core/runner_mgr.cpp:127-132 | The probe loop succeeds if and only if one of the 100 probes does |
| `Registry.BinaryPrecedence` | src/core/runner_mgr.cpp:208-217 | The first that is not empty of the explicit binary, the model's (its override if it has one, else the default) and the type's; an override that is empty hides the default |
| `WindowsHandles.HandleTable.SpawnProcess` | src/platform/windows.cpp:106-131 | A new process enters the table with a new handle; a failure changes nothing |
| `WindowsHandles.HandleTable.WaitProcess` | src/platform/windows.cpp:133-147 | Unknown pid: -1 and nothing closed; otherwise the entry leaves and its handle is closed |
| `WindowsHandles.WaitReports` | src/platform/windows.cpp:133-147 | A wait gives the exit code and closes that handle and no other; a second one, or one for an unknown pid, gives -1 and closes nothing |
| `WindowsHandles.TableTracksChildren` | src/platform/windows.cpp:106-147 | Over any sequence of spawns and waits: the keys are the spawned and not yet waited for; no handle is closed twice or while in the table |
| `WindowsHandles.ManagerClosesEveryHandle` | src/core/runner_mgr.cpp:264-279 | Under `RunnerManager` the keys are always its children, and after `stop_all` every handle ever opened has been closed exactly once |
| `CommandLine.ParseArgs` | include/cllama/util/cflag.hpp:283-443 | The whole of `parse`, loops and in-place targets included, computes the reference `Parse`, and its targets hold the bindings it reports |
| `CommandLine.ParseFrom` | include/cllama/util/cflag.hpp:349-442 | The part after the command words: help, the option loop, binding of positionals, then required arguments, then required options |
| `CommandLine.ScanArgs` | include/cllama/util/cflag.hpp:356-413 | The option loop: positionals, targets and the first refusal are those of the reference scan |
| `CommandLine.TakeOption` | include/cllama/util/cflag.hpp:360-409 | One option in either form: target set, value consumed or not, or which refusal |
| `CommandLine.ParseMeaning` | include/cllama/util/cflag.hpp:415-442 | On a normal return each option holds the value last given for it or was not given, argument i holds positional i, and everything required was supplied |
| `CommandLine.RequiredAreSupplied` | include/cllama/util/cflag.hpp:284-288 | For whole argument lists: a normal return means everything required was supplied if and only if there was an argument or the default command requires nothing |
| `CommandLine.EqualsFormEquivalence` | include/cllama/util/cflag.hpp:361-382 | Over whole argument lists, `--name=value` and `--name value` at any option position have the same outcome and targets if and only if it is not a first argument whose name is `--help` |
| `CommandLine.ShortFormEquivalence` | include/cllama/util/cflag.hpp:385-409 | Likewise `-s` and its long form, if and only if neither or both ask for help as first argument |
| `CommandLine.ParseRoundTrip` | include/cllama/util/cflag.hpp:355-442 | Any assignment with everything required, rendered canonically after its command words, parses back to exactly itself |
| `CommandLine.ScanRender` | include/cllama/util/cflag.hpp:355-413 | Any list of writable items, in any order and with repetitions, scans back to itself |
| `CommandLine.FindDeep` | include/cllama/util/cflag.hpp:463-476 | The nested loops return the last command of the path the names lead to, or none for an unknown first name |
| `CommandLine.SameCommand` | include/cllama/util/cflag.hpp:340-347 | `find_deep` and the descent of `parse` reach the same command, after the same number of names |
| `CommandLine.FullNameIsConsumed` | include/cllama/util/cflag.hpp:249-253 | The full name of the command reached is the consumed names joined by spaces |
| `CommandLine.ParseChosen` | include/cllama/util/cflag.hpp:318-353 | What follows the command words is parsed by the command they choose |
| `CommandLine.NamedCommandWins` | include/cllama/util/cflag.hpp:318-347 | A first word that names a top-level command chooses it and then the subcommands that follow, whatever the default is |
| `CommandLine.DefaultOtherwise` | include/cllama/util/cflag.hpp:328-338 | A first word that names none leaves the choice to the default command, from that word on; without a default it is refused |
| `CommandLine.HelpAndNothing` | include/cllama/util/cflag.hpp:284-311 | No arguments, `help` with and without names, and a help flag in the first place |
| `CommandLine.PathIsDescent` | include/cllama/util/cflag.hpp:340-347 | The path takes, name by name, the first subcommand of that name, and ends only where the names do or none is found |
| `CommandLine.OptionRefusals` | include/cllama/util/cflag.hpp:364-407 | An undeclared option is refused whatever follows; a known one that needs a value and comes last is refused for want of it |
| `CommandLine.FlagForm` | include/cllama/util/cflag.hpp:370-371 | A flag with `=` and a value is the flag: the value is dropped |
| `CommandLine.ShapesDecide` | include/cllama/util/cflag.hpp:361-412 | `--` and `-5` are short options, `--x` a long one, `-15` and `-` positional |
| `CommandLine.RefusedExactly` | include/cllama/util/cflag.hpp:355-440 | Which refusal, exactly when: the first bad option, else the first required argument without a value, else the first required option not given |
| `CommandLine.DeclarationOrder` | include/cllama/util/cflag.hpp:101-121 | A long and a short name: the short one is recorded in either order, the long one only when written first |
| `CommandLine.DeclaredWithBlanks` | include/cllama/util/cflag.hpp:20-25 | Blanks around the names are taken off; a declaration of one name records it as it stands and no short name |
| `Chat.Strip` | src/cli/main.cpp:618-620 | The two erase loops compute the reference function |
| `Chat.StripMeans` | src/cli/main.cpp:618-620 | Stripping only leaves characters out, leaves no `[/INST]`, and changes nothing if and only if no marker is there |
| `Chat.StripLeavesNone` | src/cli/main.cpp:618-620 | The stripped reply has no marker left if and only if no erasure joins what stands before and after it into a marker looked for earlier |
| `Chat.ApartStripsClean` | src/cli/main.cpp:618-620 | A condition on the reply as it came: none is left if no marker in it follows a character that some marker has before its last |
| `Chat.StrippingCanMakeAMarker` | src/cli/main.cpp:618-620 | Concrete reply from which stripping makes an `<s>` |
| `Chat.ChatSession.Send` | src/cli/main.cpp:577-622 | A sent line adds its exchange, or after a failure of any kind leaves the history as it was |
| `Chat.ChatSession.Run` | src/cli/main.cpp:562-624 | After any inputs the history is the transcript of the successful exchanges since the last reset, up to the line that quits |
| `Chat.TranscriptAlternates` | src/cli/main.cpp:559-624 | That transcript has even length and alternates user and assistant, exchange by exchange |
| `Chat.ResetForgets` | src/cli/main.cpp:567-571 | Nothing before the last reset matters |
| `Chat.SuccessAdds` | src/cli/main.cpp:577-622 | A line sent and answered adds its exchange, with the reply stripped, after those before it |
| `Chat.NeitherAdds` | src/cli/main.cpp:605-622 | A body with neither choices nor error adds an empty reply |
| `Chat.IdleLines` | src/cli/main.cpp:565-575 | An empty line and `/help` change nothing |
| `Chat.FailuresLeaveNoTrace` | src/cli/main.cpp:591-616 | A line whose request fails leaves the conversation as if it had not been typed |

## Left out

- llama.cpp: tokenizing, decoding, templates and embeddings are foreign code; sampling is an oracle of pieces, ends and exceptions. A token whose text needs more than 16 bytes yields no piece, as in the source.
- The HTTP, router and JSON libraries beyond the assumptions above, and what becomes of the connection and the process after the provider has thrown.
- How the HTTP client maps a refused receiver to a result: `CallResult` takes the outcome as a parameter.
- `generate_completion` and `chat_completion` as calls; their parser is modelled.
- Waiting in `IOPipe::read`: a read that would wait is a step that changes nothing (`Blocked`), so how long it waits is not modelled. Negative counts do not occur.
- Dumping the role and error events is taken to succeed: the names and messages in them come from parsed JSON.
- The leading byte-order mark an event stream may have, and its `id` and `retry` fields, which carry no data of an event.
- The streaming buffer of the cpprest router; its error frame is modelled.
- Typed conversion of option values (`stoi`, `stof`), aliased or null targets: each option and argument has a target of its own that holds the raw value.
- Printing of help and messages; a refusal is modelled by its reason and exit by its outcome.
- CommandLine.ParseRoundTrip: options whose recorded long name is not found by itself (declared short name first, containing `=`, or shadowed by an earlier option) are excluded, as no canonical long form reaches them.
- CommandLine.EqualsFormEquivalence: when the value is missing in both forms the outcomes are equal up to how the message spells the option (`SameOutcome`).
- Path resolution, environment overrides, logging, time, sleeps, identifiers made from clocks, and the freeness or uniqueness of ports: `StartEnv` supplies their results.
- Building the command line of a child process, process enumeration, daemonizing and pid files.
- That a process which has exited but was not waited for may still answer a liveness poll is left to the oracle; with such answers every stop ends with 50 polls and SIGKILL.
- In the chat, requests whose text cannot be dumped, which end the program.
