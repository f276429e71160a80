# Remote executor: a verified model

A Dafny model of the remote executor for CI scripts and of the AMI build driver that ships
with it, with proofs of what they promise. `dafny verify dfyconfig.toml` checks all of it.

## What is modelled

**The execution lifecycle.** Handlers admit executions, one worker thread per execution runs
a container, two log threads fill its output buffer, and a periodic cleanup deletes expired
records, then (outside the lock) encryption contexts, then buffers.

- `ExecutionRecords` gives each lock-protected section of the execution manager as a function
  on values. `ExecutionManagement` holds the classes (records, manager, context table) whose
  methods update their fields in place and are proved against those functions.
- `OutputStreams` and `OutputCollection` do the same for output buffers: two streams share
  one byte budget, and the reference is the log of every offered byte, tagged by stream.
- `Lifecycle` is the step system. One step is one locked section of one thread; a schedule is
  any sequence of steps, and a step that is not enabled changes nothing. Every outside
  outcome (attestation, `chmod`, Docker calls, exit codes, clocks) is part of the step.
  `LifecycleInvariant` proves one inductive invariant; `LifecycleTheorems`, `WorkerTurns`,
  `LifecycleOutput` and `Clones` draw the promises from it, for every schedule.
- `ScriptExecutor` and `ExecuteEndpoint` are the worker's and the handler's programs over the
  real tables. Each is shown to do what its own steps of the step system do, so what holds of
  every schedule holds of them.

**The attestation preimages.** `PyText`, `Json` and `JsonRoundTrip` model `json.dumps` with
ASCII escaping (strings of section 7 of RFC 8259) on Python strings, lone surrogates
included, next to a parser that undoes it; `JsonText` states the written texts in the terms of
the standard instead. `Canonical` has the two canonical texts that are
hashed, `Claims` and `OutputClaims` the claims document, its envelope and the documented
verifier, `Base64` section 4 of RFC 4648, `LengthPrefix` the framing of the composite keys.
The hash and the verifier's base64 decoder are function parameters; "does not collide on
these bytes" is written out where it is needed.

**Pruned caches.** `SlidingWindow` is both sliding-window limiters as functions, next to a
limiter that never forgets; `RateLimiters` holds the two classes. `NonceCache` does the same
for nonces.

**The build driver.** `ArtifactRef` (allowlist, digest helpers, and the executor's own
computation of an image reference), `InstallGate` (retry with backoff), `BuildFlavor` (one
flavor's seven steps), `BuildDriver` (both passes over an arbitrary outcome sequence, with a
closed form of results and log), `BuildRuns` (what holds of every run), `BuildMain` (validation,
connecting, the gate and the driver, up to the exit code).

## Results that differ from what the code says of itself

- JSON text is injective up to joining split surrogate pairs, not on all Python strings:
  `Canonical.OutputTextExactly` and `Canonical.EnvTextExactly` are the exact statements.
  `Canonical.SplitPairInValueCollides` gives a different environment with the same text for
  every environment with a split pair in a value; a split pair in a name can collide as well,
  if joining it leaves the names in the same order. Such strings arrive as raw surrogate bytes
  in a request body, which `json.loads` accepts on bytes (src/encryption.py:243); written as
  `\u` escapes the two halves are joined. Captured output is decoded with `errors='replace'`
  and has no surrogates, so the promise holds for it.
- One poll offset serves both streams. `OutputStreams.ChainedPollsReassembleStderrIff` says for
  every run when a client that chains polls holds all of stderr: after each poll, exactly when
  at every poll so far both streams were equally long at the poll before, or stderr has not
  grown since then and the offset is not short of it. `OutputStreams.StderrCanBeLost` is a run
  that breaks the condition (src/output_collector.py:127-148).
- The limiters and the nonce cache read the clock before taking the lock, so readings can go
  back. Call an allowed call overtaken once a later pruning of its key read the clock a window
  or more past it.
  - No interval of the window's length ever holds more than the maximum of calls of one key
    that the limiter allowed, exactly when every check that finds such an interval around its
    reading full also finds the maximum of young calls not overtaken
    (`SlidingWindow.NoWindowOverflowsIff`). `SlidingWindow.OutOfOrderClockOverflows` breaks it: a
    window of one call holds two.
  - Acceptances of one nonce are at least a time-to-live apart, exactly when every request that
    comes close to an acceptance of its nonce also finds a young one not overtaken
    (`NonceCache.SpacedIff`). `NonceCache.OutOfOrderClockAcceptsReplay` breaks it.
  - The limiter answers like a full history exactly when at every check with room the counted
    calls are all remembered (`SlidingWindow.RepliesLikeFullHistoryIff`); the cache under the
    condition of `NonceCache.AgreesWithFullLogIff`.
  - Readings that never go back are enough for all of it.
- The driver cuts a digest at the first `@` and a tag at the last colon of the last path
  segment, the executor at the first `@sha256:` and the first such colon.
  `ArtifactRef.PinningAgreesIff` is the exact condition for references with a digest, and it
  holds on every reference the allowlist accepts. The allowlist's `$` also accepts a final
  newline, and the model keeps it.
- A flavor's failure is isolated exactly if the loop goes on after it (a RuntimeError, or a
  transport error with a successful reconnect), or if the flavor is the last and no exception
  leaves the driver: `BuildRuns.FailureIsolatedIff`. A dead host makes every later flavor
  skipped, and an exception of any other kind ends the run.
- The line that removes the clone of a repository runs once in all, in the handler if it gives
  the execution up and else in the worker, unless removing the container raises something other than an API
  error: then it is not reached (src/script_executor.py:436-441,
  `Clones.CloneLeavesOnce`).
- An execution that was admitted but never handed to a worker stays queued for good and keeps
  its slot (`LifecycleTheorems.GivenUpStaysQueued`).

## Model

| member | source | states |
|---|---|---|
| `ExecutionManagement.ExecutionManager.TryCreateExecution` | src/execution_manager.py:89-147 | admits exactly while fewer than the maximum have status queued or running; the table and the total change only then, and a new queued record without times and exit code is stored |
| `ExecutionManagement.ExecutionManager.GetExecution` | src/execution_manager.py:149-160 | the stored record object, or null exactly when the id is unknown |
| `ExecutionManagement.ExecutionManager.UpdateStatus` | src/execution_manager.py:162-216 | false and no change for an unknown id; otherwise each field of the one record, both counters and the bounded durations, from their old values; no other record changes |
| `ExecutionManagement.ExecutionManager.CleanupExpired` | src/execution_manager.py:218-265 | removes exactly the records with status completed, failed or timed out whose completion is more than the retention ago, and exactly their contexts and buffers; everything else stays; returns how many |
| `ExecutionManagement.ExecutionManager.CollectExpired` | src/execution_manager.py:233-243 | the loop collects each terminal record completed before the cutoff once, and no other |
| `ExecutionManagement.ExecutionManager.CountActive` | src/execution_manager.py:267-277 | the number of queued or running records |
| `ExecutionManagement.ExecutionManager.GetMetrics` | src/execution_manager.py:290-322 | the counters, the active count, and the mean of the stored durations in milliseconds, rounded to the nearest hundredth, ties to even (0 without any) |
| `ExecutionManagement.EncryptionContexts.GetSharedKey` | src/encryption.py:257-260 | the key stored for the id, or none; reading changes nothing |
| `ExecutionManagement.EncryptionContexts.RemoveEncryptionContext` | src/encryption.py:262-265 | forgets the id's key and no other; no error when there is none |
| `OutputCollection.OutputCollector.CreateBuffer` | src/output_collector.py:32-40 | an empty buffer for a new id; an existing one is kept as it is |
| `OutputCollection.OutputCollector.CaptureOutput` | src/output_collector.py:42-83 | which error for which call; otherwise the bytes that fit go to the end of the named stream, the other stream stays, and truncated is set exactly if some did not fit |
| `OutputCollection.OutputCollector.MarkComplete` | src/output_collector.py:85-103 | sets completion and exit code of the one buffer, or fails for an unknown id with no change |
| `OutputCollection.OutputCollector.GetOutput` | src/output_collector.py:105-148 | the slices of both streams from the offset, the stream lengths as new offsets, and each error case |
| `OutputCollection.OutputCollector.RemoveOutput` | src/output_collector.py:150-158 | forgets that buffer and no other |
| `OutputStreams.CaptureHolds` | src/output_collector.py:62-83 | if a buffer holds the first `max` bytes of a log, it does so after one more capture of the longer log |
| `OutputStreams.BufferIsPrefixOfInterleavedLog` | src/output_collector.py:42-83 | for every sequence of captures the two streams are the projections of the first `max` bytes of the interleaved log, and truncated holds iff more were offered |
| `OutputStreams.ChainedPollsReassembleStdout` | src/output_collector.py:127-148 | raw slices chained by the returned stdout offset concatenate to stdout, with no gap and no overlap |
| `OutputStreams.ChainedPollsReassembleStderrIff` | src/output_collector.py:127-148 | for every run: a client that chains polls holds exactly stderr after each poll iff every poll meets the condition on the lengths seen at the poll before it |
| `OutputStreams.StderrCanBeLost` | src/output_collector.py:127-148 | a run that breaks the condition: the client holds no stderr while the buffer has two bytes |
| `LifecycleInvariant.RunKeepsInv` | src/execution_manager.py:132-260 | every schedule keeps the invariant that ties records, history, buffers, contexts, containers, pending removals and counters together |
| `LifecycleInvariant.UpdateKeepsMetrics` | src/execution_manager.py:182-216 | the first terminal status of an execution counts once, in one counter, with one stored duration |
| `LifecycleInvariant.CleanNextKeeps` | src/execution_manager.py:250-260 | removals outside the manager's lock, interleaved with anything, never break the invariant |
| `LifecycleTheorems.MetricsConserved` | src/execution_manager.py:132-216 | in every reachable state: total = queued and running + successful + failed; stored durations = min(10000, finished); active at most the configured maximum |
| `LifecycleTheorems.StatusesInOrder` | src/script_executor.py:273-429 | every execution's statuses are queued, then running, then one terminal status; the record shows the last one; a finished worker gave exactly one terminal status |
| `LifecycleTheorems.StatusesOnlyAdvance` | src/execution_manager.py:162-216 | between any two states of a run the history only grows at its end |
| `LifecycleTheorems.TerminalRecordsAreConsistent` | src/script_executor.py:374-429 | a terminal record has its context and a complete buffer within the budget with the same exit code; Completed iff that code is 0; TimedOut only with -1 |
| `LifecycleTheorems.NoOrphans` | src/execution_manager.py:233-260 | every context or buffer belongs to a live record or is on a running cleanup's list; every tracked container belongs to a worker that is not done |
| `LifecycleTheorems.CleanupSparesLiveRecords` | src/execution_manager.py:250-260 | no cleanup step removes the context or buffer of an execution whose record is still there |
| `LifecycleTheorems.CleanupSparesActive` | src/execution_manager.py:233-248 | no cleanup removes the record of an execution that is not over |
| `LifecycleTheorems.CleanupAlone` | src/execution_manager.py:218-265 | a cleanup run to its end without interference removes exactly the terminal records completed before the cutoff, with their contexts and buffers |
| `LifecycleTheorems.WorkerFindsItsTables` | src/script_executor.py:273-419 | a worker never misses its record, its client's context, or the buffer it marks complete |
| `LifecycleTheorems.WorkerFinishes` | src/script_executor.py:254-441 | whatever fails and whatever else is scheduled, a worker given the turns its phase needs (at most 12) is done with exactly one terminal status |
| `LifecycleTheorems.GivenUpStaysQueued` | src/server.py:826-874 | an execution admitted but not handed off stays queued and active in every continuation |
| `WorkerTurns.VerdictOfTurns` | src/script_executor.py:273-429 | for every schedule, by the outcomes of the worker's own turns: Completed iff the container was created and started and exited with 0, TimedOut iff it was up, the wait failed and it could be stopped, Failed otherwise; the record's exit code, start and completion time |
| `WorkerTurns.CleanupDropsIff` | src/execution_manager.py:218-248 | for every schedule and cutoff: a cleanup drops a record iff its execution is over and the reading of the turn that wrote its final status lies before the cutoff |
| `LifecycleOutput.BuffersHoldWhatWasOffered` | src/script_executor.py:443-469 | under every interleaving a held buffer contains the first bytes, up to the budget, of what its two log threads handed over |
| `Clones.CloneLeavesOnce` | src/script_executor.py:431-441 | for every schedule: while an execution has an owner its clone is left alone, and once its handler gave it up or its worker is done the removal was run, or skipped by a failed container removal, exactly once in all |
| `ScriptExecutor.Executor.ExecuteInContainer` | src/script_executor.py:254-441 | without interference the worker's program ends where a schedule of its own steps ends, done; the status and exit code by what `chmod`, create, start, wait and stop did; a complete buffer with that code that holds what the container delivered, each byte in its stream, up to the budget |
| `ScriptExecutor.Executor.StreamLogs` | src/script_executor.py:443-469 | the log steps of exactly the non-empty chunks, in order; the buffer is the one that captures all of them |
| `ExecuteEndpoint.Execute` | src/server.py:824-935 | handed off exactly if admitted, attested and started; the clone is removed exactly otherwise; which response in each case; the key stored exactly if admitted and attested; the tables end where the schedule of the handler's four steps ends |
| `PyText.SameLiteralIff` | src/attestation.py:180 | two strings have the same escaped JSON literal exactly when they have the same UTF-16 units |
| `PyText.NormalIffNoSplitPair` | src/attestation.py:180 | a string reads back unchanged exactly when it has no surrogate pair written as two code points |
| `JsonText.QuoteIsLiteral` | src/attestation.py:587-590 | every string is written as quotation marks around its UTF-16 code units: the seven two-character escapes, printable ASCII as itself, everything else as backslash, u and four lower-case hex digits |
| `JsonText.DecimalIsNumber` | src/attestation.py:587-590 | integers in decimal without leading zeros, with a minus sign if negative |
| `JsonText.ObjectText` | src/attestation.py:180 | objects as braces around their members in order, with or without a space behind each separator |
| `JsonText.ListText` | src/attestation.py:247 | lists as brackets around their items in order |
| `JsonText.OutputTextIs` | src/attestation.py:587-590 | the canonical output text, piece by piece around the three values |
| `JsonText.EnvTextIs` | src/attestation.py:176-180 | the hashed environment text: each variable once, in code-point order of the names |
| `JsonText.BeforeIs` | src/attestation.py:180 | that order: at the first difference the smaller code point, or the end, comes first |
| `JsonText.ClaimsTextIs` | src/attestation.py:247 | the bytes of the claims document that are hashed and sent |
| `JsonRoundTrip.ParseUndoesEncode` | src/attestation.py:247 | parsing an encoded value, in either separator style, gives the value back with split pairs joined |
| `JsonRoundTrip.SameTextIff` | src/attestation.py:589-592 | two JSON values have the same text exactly when they agree after joining split pairs |
| `Canonical.SortKeysSorts` | src/attestation.py:180 | sorting members by key keeps all of them and orders them strictly |
| `Canonical.SortedUnique` | src/attestation.py:180 | a member list in key order is determined by its elements |
| `Canonical.EmptyEnvAgrees` | src/attestation.py:176-180 | the special case for an empty or missing environment writes what the general encoder writes |
| `Canonical.EnvTextIgnoresInsertionOrder` | src/attestation.py:162-180 | the hashed environment text is the same for every insertion order of the same map |
| `Canonical.EnvTextNamesTheMap` | src/attestation.py:162-180 | without split pairs, equal texts exactly for equal maps |
| `Canonical.EnvTextExactly` | src/attestation.py:162-180 | for all environments: the exact condition for equal texts |
| `Canonical.SplitPairInValueCollides` | src/attestation.py:180 | every environment with a split pair in a value has the text of a different environment |
| `Canonical.ReadOutputUndoesText` | src/attestation.py:589-592 | the canonical output text reads back to its output |
| `Canonical.OutputTextExactly` | src/attestation.py:583-592 | for all outputs: equal texts exactly when they agree after joining split pairs |
| `Canonical.OutputTextInjective` | src/attestation.py:583-593 | over scalar-value strings and any exit code or none, equal texts mean equal stdout, stderr and exit code |
| `Canonical.GluedTextCollides` | src/attestation.py:585-588 | the older delimiter-glued text does not: different outputs share one |
| `Base64.DecodeUndoesEncode` | src/attestation.py:249 | decoding undoes encoding on every byte string |
| `Base64.DecodeIffEncoded` | src/attestation.py:249 | the texts the encoder writes are those a strict decoder accepts, each for its own bytes |
| `Base64.GroupIs` | src/attestation.py:249 | three bytes are written as the four base-64 digits of one 24-bit number |
| `Base64.SymbolIs` | src/attestation.py:249 | the alphabet, by the ASCII codes of table 1 of RFC 4648 |
| `Base64.OneByteIs` | src/attestation.py:249 | a last group of one byte is filled up with zero bits and two '=' |
| `Base64.TwoBytesAre` | src/attestation.py:249 | a last group of two bytes is filled up with zero bits and one '=' |
| `Claims.DocumentIsVersionThenFields` | src/attestation.py:215-227 | the built document is the schema version followed by the given fields, losing none; any other kind fails |
| `Claims.BuiltDocumentSays` | src/attestation.py:215-227 | for all fields: under each name the value of the last field of that name, else the version under its own name, else nothing |
| `Claims.EnvelopeIs` | src/attestation.py:246-258 | the envelope's version, time, execution and the digest of exactly the bytes that the transmitted text decodes to |
| `Claims.OtherEnvelopesRejected` | README.md:358-365 | with the claims that were sent, an envelope of another version or digest is rejected |
| `Claims.MajorVersionIs` | README.md:362 | a schema version is known iff it is "1" or begins with "1." |
| `Claims.VerifierAcceptsExactlyWhatWasBuilt` | README.md:358-365 | for every decoder, every document and every `claims_raw` or none: the documented verifier accepts exactly what decodes to the signed bytes if the schema version is known, and reads the document back; it rejects everything else, unless the hash collides on the decoded bytes |
| `Claims.StrictDecoderRecovers` | README.md:360 | with a strict decoder, only the `claims_raw` that was built decodes to the signed bytes |
| `Claims.BuiltClaimsAreBound` | src/attestation.py:215-258 | with any decoder that undoes the encoding, what the builder and the finaliser produce from fields other than the version is accepted and read back; a `claims_raw` that is missing or decodes to other bytes is rejected, with the same proviso on the hash |
| `OutputClaims.BuildSecurityUserData` | src/attestation.py:121-160 | the dictionary filled step by step holds, under each of the nine names, exactly that setting if it was supplied and nothing otherwise |
| `OutputClaims.PresentInjective` | src/attestation.py:141-160 | what is written determines every setting, including which ones were not supplied |
| `OutputClaims.OutputDocumentShows` | src/attestation.py:583-618 | the output document says the version, the digest, each setting and the GPU block under its own name, and has no other name |
| `OutputClaims.ReadClaimsShowTheOutput` | README.md:358-365 | and so does whatever the verifier reads, with split pairs joined |
| `OutputClaims.NormalPostureOfPlain` | src/attestation.py:141-160 | settings without split pairs are read as they were written |
| `OutputClaims.BuilderWritesOutputDocument` | src/attestation.py:597-618 | the output claims document is the version, the digest, the supplied posture and the GPU block, none overwritten |
| `OutputClaims.EqualDocumentsEqualClaims` | src/attestation.py:597-618 | equal output documents attest the same digest, posture and GPU block |
| `OutputClaims.OutputDocumentIsBound` | src/attestation.py:597-618 | every output document is accepted from exactly the `claims_raw` that decodes to its bytes, and read back, unless the hash collides on the decoded bytes |
| `OutputClaims.VerifiedOutputIsTheSignedOutput` | src/attestation.py:583-618 | end to end: an accepted document of an output is the document of the signed output, with the signed posture and GPU block, split pairs joined |
| `LengthPrefix.ParseLengthPrefixed` | src/encryption.py:103-123 | the loop computes the recursive parse, with each of the two errors; it terminates by the bytes left |
| `LengthPrefix.ParseUndoesSerialise` | src/encryption.py:62-67 | parsing a serialised list of components shorter than 2^32 returns that list |
| `LengthPrefix.SerialiseUndoesParse` | src/encryption.py:103-123 | a successful parse re-serialises to its input |
| `LengthPrefix.ParseFailsIffNotAFraming` | src/encryption.py:109-123 | parsing fails exactly on the byte strings that frame no list |
| `LengthPrefix.SerialiseInjective` | src/encryption.py:62-72 | no two lists of components share a framing, so the fingerprint names one key pair |
| `LengthPrefix.BigEndian` | src/encryption.py:62-67 | the length is four bytes, the most significant first |
| `LengthPrefix.TwoComponents` | src/encryption.py:62-67 | the composite key is each component behind its length |
| `LengthPrefix.ErrorsExactly` | src/encryption.py:107-121 | which error, with which numbers, for every way in which bytes are left behind the last whole component |
| `RateLimiters.RateLimiter.CheckRateLimit` | src/server.py:178-207 | allowed iff fewer than the maximum of the address's stored readings are less than a window old; the remaining count; the new table, unchanged for other addresses |
| `RateLimiters.RateLimiter.CleanupStaleIps` | src/server.py:209-241 | exactly the addresses without a reading less than a window old go; the other lists are pruned; how many went |
| `RateLimiters.OutputAttestationRateLimiter.CheckAndRecord` | src/output_attestation_rate_limiter.py:46-80 | allowed iff fewer than the maximum of the execution's stored readings are less than a window old; the new table |
| `SlidingWindow.RepliesLikeFullHistoryIff` | src/server.py:188-241 | for every sequence of checks and cleanups, whatever the clock: the exact condition for the pruned limiter to answer like one that never deletes anything |
| `SlidingWindow.DecidesLikeFullHistoryIff` | src/output_attestation_rate_limiter.py:61-80 | the same for the decisions alone |
| `SlidingWindow.PrunedLimiterDecidesLikeFullHistory` | src/server.py:188-241 | with readings that never go back the condition holds: pruning and sweeping change no answer |
| `SlidingWindow.NoWindowOverflowsIff` | src/output_attestation_rate_limiter.py:61-80 | whatever the clock: the exact condition for no half-open window ever to hold more than the maximum of calls of one key that the pruned limiter allowed |
| `SlidingWindow.NoWindowOverflowsInOrder` | src/output_attestation_rate_limiter.py:61-80 | readings that never go back meet it: no window overflows |
| `SlidingWindow.StoredListsBounded` | src/server.py:188-205 | stored lists never exceed the maximum |
| `SlidingWindow.RemainingIsExact` | src/server.py:198-207 | the returned remaining count is exactly how many more calls at that instant are accepted |
| `SlidingWindow.OutOfOrderClockOverflows` | src/server.py:188-241 | a run that breaks the condition: the limiter allows two calls in a window of one |
| `NonceCache.NonceCache.CheckAndStore` | src/nonce_cache.py:36-55 | new iff not stored less than the time-to-live ago; exactly the older entries go, and the new one is stored with its reading |
| `NonceCache.AcceptsIff` | src/nonce_cache.py:36-70 | for every run, whatever the clock: accepted iff every acceptance of the nonce less than the time-to-live ago was overtaken by the reading of a request in between |
| `NonceCache.AgreesWithFullLogIff` | src/nonce_cache.py:36-70 | the exact condition for the cache to answer like a log that forgets nothing |
| `NonceCache.SpacedIff` | src/server.py:701-708 | whatever the clock: the exact condition for acceptances of one nonce to be at least the time-to-live apart, in either direction, whichever endpoint asked |
| `NonceCache.CacheDecidesLikeFullLog` | src/nonce_cache.py:46-70 | with readings that never go back a nonce is accepted iff it has no acceptance less than the time-to-live ago |
| `NonceCache.AcceptancesSpaced` | src/server.py:701-708 | of the cache's own answers: with readings that never go back, two acceptances of one nonce are at least the time-to-live apart, whichever endpoint asked |
| `NonceCache.OutOfOrderClockAcceptsReplay` | src/nonce_cache.py:46-49 | a run that breaks the condition: the cache accepts all three requests, one of them a replay 299 seconds after the first with a time-to-live of 300 |
| `ArtifactRef.PinningAcceptedRef` | scripts/build-ami.py:101-164 | for every accepted reference the pinned form has no tag, is accepted again, keeps the digest and is a fixed point |
| `ArtifactRef.PinnedFormOfParts` | scripts/build-ami.py:101-164 | pinning keeps the registry path and the digest and drops exactly the tag |
| `ArtifactRef.StripsAgreeIff` | scripts/build-ami.py:155-164 | the driver's and the executor's tag removal agree exactly when the last segment has at most one colon |
| `ArtifactRef.PinningAgreesIff` | src/script_executor.py:182-208 | for every reference with a digest: driver and executor compute the same pinned form exactly when the first `@` starts the digest and the last segment before it has at most one colon |
| `ArtifactRef.ExecutorAgreesOnAcceptedRef` | src/script_executor.py:182-208 | on accepted references the executor computes the driver's pinned form |
| `InstallGate.RunInstallStep` | scripts/build-ami.py:722-767 | at most the allowed runs; every run but the last failed transiently; a deterministic failure is not retried; k runs sleep base*(2^(k-1)-1) in total |
| `InstallGate.ReportUnique` | scripts/build-ami.py:754-767 | those facts determine the result, the runs and the sleep |
| `InstallGate.InstalledIff` | scripts/build-ami.py:754-767 | the step succeeds exactly when one of the allowed runs does, after only transient failures |
| `InstallGate.DelaySumClosedForm` | scripts/build-ami.py:762-765 | the doubling delays sum to base*(2^n-1) |
| `InstallGate.InstallAllTools` | scripts/build-ami.py:770-813 | the gate opens iff every step ran in order and succeeded; nothing runs after a failure |
| `BuildFlavor.BuildFlavorPass1` | scripts/build-ami.py:1564-1637 | succeeds iff every step answered, the signature is good and the debug gate opens; otherwise the failure of the first step that does not go through; the log is the steps before it, in order, for the digest-pinned reference |
| `BuildFlavor.CheckDebugAnnotation` | scripts/build-ami.py:949-1030 | returns iff the host answered and debug images are allowed or the manifest is readable and does not say debug=true; which exception otherwise |
| `BuildDriver.TakeTurn` | scripts/build-ami.py:1684-1715 | one iteration of Pass 1: what each kind of failure leads to |
| `BuildDriver.RunPass1` | scripts/build-ami.py:1681-1715 | the loop's results, captures, connection and log in closed form; stops at the first flavor that ends it, the rest skipped |
| `BuildDriver.RunPass2` | scripts/build-ami.py:1723-1756 | every captured flavor, in order; a failure stays with its flavor |
| `BuildDriver.RunBuildDriver` | scripts/build-ami.py:1640-1758 | the result map holds exactly the manifest's names with the closed-form status of each, and the log is the closed-form log; or an exception escaped, exactly if it should |
| `BuildDriver.FinalResults` | scripts/build-ami.py:1746-1756 | Pass 2 replaces every "pass1-ok" entry and no other |
| `BuildRuns.ExitZeroIff` | scripts/build-ami.py:2023-2032 | given how the driver ended: the summary finds a success iff no exception escaped and some flavor went through both passes; no flavor ends as "pass1-ok" |
| `BuildRuns.StatusIs` | scripts/build-ami.py:1681-1756 | the final status of every flavor, by what the host answered in its seven steps, how the flavors before it ended, and its Pass 2 |
| `BuildRuns.EscapesIff` | scripts/build-ami.py:1684-1715 | an exception leaves the driver iff some attempted flavor fails in a way that neither except clause handles, or its reconnect raises |
| `BuildRuns.ConnCounts` | scripts/build-ami.py:1694-1705 | a flavor runs on the connection numbered by the successful reconnects before it |
| `BuildRuns.ResultsNameTheirImage` | scripts/build-ami.py:1729-1752 | every result file follows a registration of its flavor and names the AMI registered there |
| `BuildMain.RunMain` | scripts/build-ami.py:1944-2043 | exit code 0 iff the arguments were accepted, the connection and every tool came up, no exception left the driver, and some attempted flavor had all seven good answers and its Pass 2; uncaught errors only before the `try`; the log is the connection, the tools in order, then the driver's whole run, and without the gate no flavor action at all |
| `BuildRuns.FailuresAreIsolated` | scripts/build-ami.py:1682-1715 | two runs that differ in one flavor that lets the loop go on agree on every other flavor |
| `BuildRuns.FailureIsolatedIff` | scripts/build-ami.py:1682-1715 | the exact condition for a flavor's failure to leave every other flavor, and whether an exception escapes, as if it had gone through |
| `BuildRuns.AttemptedAtMostOnce` | scripts/build-ami.py:1682-1715 | no flavor begins twice |
| `BuildRuns.TransportErrorsReconnectFirst` | scripts/build-ami.py:1694-1705 | after a transport error nothing runs on the host before a reconnect and a kill attempt, and then only on a newer connection than before |
| `BuildRuns.RegisteredImagesAreBuilt` | scripts/build-ami.py:1607-1627 | every registered AMI's snapshot was uploaded in its own flavor's pass, after the wipe, signature check, pull, file check, debug gate and PCR check of the same pinned reference, on one connection; the AMI is the one its own registration returned |

## Left out

- Cryptography (X25519, ML-KEM, HKDF, AES-GCM, SHA-256): the hash is a parameter, keys are bytes.
- Docker, SSH, AWS, Git, HTTP and the TPM tool: only their outcomes appear, as inputs.
- OIDC, JWKS, branch globs, URL and path validation, request parsing, response headers and error envelopes: single-branch checks or library calls.
- `src/config.py`: its limits appear as parameters, natural numbers where it checks for positive ones.
- OutputCollection.OutputCollector.GetOutput: the slices are bytes; their decoding as UTF-8 with replacement is not modelled.
- The claims document of kind "execution": `Claims` covers its framing, only the output claims are modelled field by field.
- GPU collection through NVML: the GPU block is any JSON value or none.
- JSON numbers with fraction or exponent: no attested field has one.
- ArtifactRef.ImmutableImageRef: only with a configured digest; without one the source returns the image unchanged.
- Base64.Decode: strict; Python's default decoder accepts more texts, and `Claims` is stated for every decoder.
- SlidingWindow.PrunedLimiterDecidesLikeFullHistory: for readings that do not go back in lock order; the exact condition for any clock is `SlidingWindow.RepliesLikeFullHistoryIff`.
- NonceCache.CacheDecidesLikeFullLog: likewise; the exact condition is `NonceCache.AgreesWithFullLogIff`.
- NonceCache.AcceptancesSpaced: likewise; the exact condition is `NonceCache.SpacedIff`.
- BuildDriver.RunBuildDriver: requires distinct flavor names, which `load_flavors_manifest` does not check (scripts/build-ami.py:1840-1847).
- ScriptExecutor.Executor.ExecuteInContainer: run without interference, log chunks captured before the threads are joined; interference and late chunks are in the step system.
- ScriptExecutor.Executor.StreamLogs: the two threads' chunks in one given order, and no exception from the stream; any interleaving is in the step system.
- Lifecycle.ApplyLog, Lifecycle.Mark, OutputCollection.OutputCollector: `capture_output`, `mark_complete` and `get_output` look the buffer up again outside the store's lock (src/output_collector.py:57, 99, 127), so a removal in between raises KeyError; here each call is one step.
- ExecutionManagement.ExecutionManager.GetMetrics: durations are whole microseconds and the mean is a real number; the rounding errors of floating point are not modelled.
- `create_execution`: the variant of `try_create_execution` without a limit has no caller in the server.
- `terminate` and the startup removal of dangling containers: no caller touches the tables through them while executions run.
- Poll responses: the status is read after the buffer, so a response is no snapshot; properties are of states.
- `execute_remote_command`, `load_baked_image`, the install scripts, `scripts/deploy.py`, `scripts/cleanup.py`, `src/logging_config.py`: plumbing.
