# Verified model of a Clockify MCP server

This project models the parts of a single-process MCP server for Clockify in
which the hard promises live, and proves them in Dafny. `dafny verify
dfyconfig.toml` checks everything.

| module | what it models |
|---|---|
| `JsonValue`, `Text` | decoded JSON documents; decimal numerals and JSON pointers (RFC 6901) |
| `MergePatch` | the JSON Merge Patch diff sent to subscribers and the apply a client runs (RFC 7396) |
| `ResourceFeed` | the emitter of resource updates, its cache of baselines, and the clients that follow it |
| `Confirmation` | canonical arguments, the single-use token store, the gate in front of handlers, and runs of interleaved calls |
| `CircuitBreaker`, `UpstreamClient`, `SharedBreaker` | the per-endpoint breaker, the retry loop that drives it, and runs of many requests on one breaker |
| `Session`, `ProgressGate` | in-flight calls, cancellation, reply suppression, progress tokens and their flood gate |
| `Dispatch`, `RiskClass` | dispatch slots and per-family concurrency caps |
| `TokenBucket` | the per-risk rate limiter |
| `SizeGuard` | the response size guard and its binary search |
| `JsonSchema` | the argument validator and its error pointers |
| `Subscriptions` | the reference-counted subscription index and the notifier hub |
| `Pagination` | the auto-paginating scan and the project-filter scan |
| `ToolList` | the tools/list cache and its cursor pages |

Code that changes state is a class or a method with loops, specified by ghost
functions of the old state; whole runs are sequences of atomic steps over those
same functions, so that an interleaving of any number of calls is a sequence.
Loops over Go maps pick the next key arbitrarily, so every result holds for every
iteration order.

## Where the code and its comments differ

The model follows the code; each case is a theorem below.

- The merge-patch fallback fires on any null. Nulls inside arrays and a top-level
  null would in fact survive: `RoundTripExactly` gives the exact condition, and
  `NullCannotBeAdded` shows that a fallback is needed at all.
- A truncated list that sits in a field called `count` is overwritten by the
  refreshed counter. `CappedKeepsPrefix` shows that this is the only such name.
- Auto-pagination marks a list that is exactly `max_rows` long as truncated although
  all of it is returned; `RunListWithAutoPaginate` states that this is the only
  length at which the flag is wrong. Its safety stop cannot be reached.
- The cap of ten progress notifications a second is kept by windows, not by every
  second: nineteen can fall into one second, and never more
  (`ProgressIsOrderedAndBounded`, `NineteenInOneSecond`).
- A broadcast to every notifier stands in for per-peer delivery when the sentinel
  subscribed, and its comment promises at most one delivery each and none missed.
  `NotifyResourceUpdated` states exactly when each half is true, and
  `BroadcastMayRepeat` and `BroadcastMayMiss` are runs in which it is not.
- Request ids that share their text share an in-flight entry, and a reused id takes
  it over. `CancellableExactly` says which call a cancellation reaches;
  `IdsWithTheSameText` is a run in which it reaches the wrong one.
- The breaker's comments have an open endpoint close on a successful probe. It closes
  on any reply that is not counted as a failure, in any state: `ReplyCloses` lists
  them, `EarlyAdmissionExactly` says when a request gets in early, and
  `LateNonFailureReadmits` and `CancelledProbeCloses` are the runs.
- Every breaker error promises the cool-down before the next probe. A half-open
  endpoint with all its probes out names a wait that does not help:
  `RetryAfterHelpsExactly`, with the run `SaturatedProbe`.
- The emitter's comment says that no baseline matters while nobody is subscribed. A
  client that subscribes again and reads is then given merges against a document it
  never had: `StaleBaseline` is the run, `NextUpdateServedExactly` the exact condition.

## Model

| member | source | states |
|---|---|---|
| MergePatch.DiffObjects | internal/jsonmergepatch/merge_patch.go:129-164 | whatever order the maps yield, the patch has exactly the members that the diff of each single key calls for |
| MergePatch.Diff | internal/jsonmergepatch/merge_patch.go:68-89 | the patch is the diff about which the round trip, minimality and sync results below speak |
| MergePatch.Apply | internal/jsonmergepatch/merge_patch.go:170-194 | applying a patch is MergePatch of section 2 of RFC 7396, for every iteration order |
| MergePatch.HasNull | internal/jsonmergepatch/merge_patch.go:223-237 | true exactly when some path of names and indices leads to a null |
| MergePatch.ContainsNullExactly | internal/jsonmergepatch/merge_patch.go:223-237 | there is a null at any depth if and only if some path of member names and array indices, followed by a lookup of its own, leads to one |
| MergePatch.DiffOrFull | internal/jsonmergepatch/merge_patch.go:97-110 | the full document is sent exactly when some path in it leads to a null, otherwise the diff |
| MergePatch.EmptyDiffMeansEqual | internal/jsonmergepatch/merge_patch.go:129-164 | an empty diff means that the objects are equal, so a changed nested object is never dropped |
| MergePatch.RoundTripExactly | internal/jsonmergepatch/merge_patch.go:59-89 | applying the diff gives the target if and only if every null member of the target reached through objects was null there before; and no patch of any kind reaches a target that the diff misses |
| MergePatch.NullCannotBeAdded | internal/jsonmergepatch/merge_patch.go:21-29 | a concrete pair of documents that no plain merge patch connects |
| MergePatch.PatchedNullsWereThere | internal/jsonmergepatch/merge_patch.go:170-194 | no patch can introduce a null member |
| MergePatch.DiffIsMinimal | internal/jsonmergepatch/merge_patch.go:59-89 | every patch that produces the target has at least as many nodes as the diff |
| MergePatch.DiffMentionsOnlyDifferences | internal/jsonmergepatch/merge_patch.go:129-164 | a path into the diff is a path at which the documents differ |
| MergePatch.DiffMentionsEveryDifference | internal/jsonmergepatch/merge_patch.go:129-164 | every member of two objects that differs is in the diff, at any depth |
| MergePatch.MergeIdempotent | internal/jsonmergepatch/merge_patch.go:170-194 | a patch applied twice in a row does what it does once |
| MergePatch.DeltaSync | internal/jsonmergepatch/merge_patch.go:97-125 | a client that starts in sync holds the latest document after every run of updates, however often each message is redelivered |
| ResourceFeed.Emitter.EmitResourceUpdate | internal/tools/resources.go:608-661 | nothing is emitted and no baseline moves while nobody is subscribed; otherwise the delta goes from the baseline to the reading, and only this resource's baseline changes |
| ResourceFeed.Emitter.EmitResourceDeleted | internal/tools/resources.go:663-673 | the baseline is dropped, subscribed or not |
| ResourceFeed.ServedExactly | internal/tools/resources.go:640-660 | a copy is brought to every next document if and only if it stands for the baseline |
| ResourceFeed.NullFreeCopiesAreEqual | internal/jsonmergepatch/merge_patch.go:97-110 | for objects without nulls, standing for the baseline is being equal to it |
| ResourceFeed.NextUpdateServedExactly | internal/tools/resources.go:358-387 | from any state, a subscribed client is right after the next update, whatever it is, if and only if its copy stands for the baseline |
| ResourceFeed.RunsInOrderStayInSync | internal/tools/resources.go:608-673 | in every run in which subscriptions start without a copy and subscribed clients read only while no change is unobserved, a client holds the baseline, and after every delivery the document, or knows that it has to read |
| ResourceFeed.SettledExactly | internal/tools/resources.go:623-632 | only a change can go unobserved, and an emission catches up with it exactly if somebody is subscribed |
| ResourceFeed.StaleBaseline | internal/tools/resources.go:627-632 | a run with a change between two subscriptions after which a merge leaves the client with a member that is gone |
| Confirmation.NormalizeJsonValue | internal/safety/canonical.go:27-49 | the loops build the canonical form, for every iteration order |
| Confirmation.NormalIsClean | internal/safety/canonical.go:20-49 | the canonical form has no volatile member at any depth, and a value without any is its own canonical form |
| Confirmation.NormalMeansAlike | internal/safety/canonical.go:20-49 | two values have the same canonical form if and only if they are alike: objects agree on every name other than the two volatile ones, arrays item by item, anything else is equal |
| Confirmation.NormalIdempotent | internal/safety/canonical.go:27-49 | canonicalising twice is canonicalising once |
| Confirmation.TokenStore.constructor | internal/safety/token.go:63-79 | the lifetime is positive, five minutes by default |
| Confirmation.TokenStore.Issue | internal/safety/token.go:85-99 | the token is bound to the payload until now plus the lifetime, and no other token changes |
| Confirmation.TokenStore.Validate | internal/safety/token.go:106-126 | the first check removes the token whatever its outcome; the outcome tells unknown, expired and foreign payloads apart |
| Confirmation.SamePayload | internal/mcp/tools.go:541-565 | two calls share a payload exactly when tool, risk class and workspace are the same and their arguments are alike |
| Confirmation.Gate.ConfirmationPayload | internal/mcp/tools.go:541-548 | the payload of a call, as bound into tokens |
| Confirmation.Gate.Decide | internal/mcp/tools.go:404-451 | what happens to a call before its handler, and which token, if any, it costs |
| Confirmation.DecisionExactly | internal/mcp/tools.go:404-451 | for every decision, the exact condition on the request itself: whether confirmation is needed, `dry_run` is true, a token is presented, known, unexpired and bound to an alike call |
| Confirmation.Gate.IssueForResult | internal/mcp/tools.go:503-522 | a dry run's token is bound to that call's payload |
| Confirmation.EveryRunKeepsInvariant | internal/mcp/tools.go:404-501 | in every run stored tokens come from dry runs, a token is stored or held or spent but never two of these, and nothing that needs a token runs without one |
| Confirmation.EveryRunIsConfirmed | internal/mcp/tools.go:404-501 | in every run with confirmation enabled, the handler calls that need confirmation map one-to-one to earlier dry runs of the same tool with alike arguments, decided within the lifetime of the token |
| Confirmation.ConfirmedCallRuns | internal/mcp/tools.go:404-451 | a live call that is alike to its dry run and presents the token within its lifetime is executed |
| CircuitBreaker.Breaker.constructor | internal/clockify/circuit_breaker.go:86-107 | thresholds that are not positive are replaced by the defaults, so the configuration is always sound |
| CircuitBreaker.Breaker.Ensure | internal/clockify/circuit_breaker.go:175-183 | an unseen key starts closed and other keys stay as they are |
| CircuitBreaker.Breaker.Transition | internal/clockify/circuit_breaker.go:185-197 | a change of state resets the counters that belong to the old state, and a repeat is a no-op |
| CircuitBreaker.Breaker.Admit | internal/clockify/circuit_breaker.go:119-138 | verdict and stored states are those of one step of the run model, in every mode |
| CircuitBreaker.Breaker.Before | internal/clockify/circuit_breaker.go:112-138 | the call is logged once; verdict, wait and the state of every key are those of the run model |
| CircuitBreaker.VerdictExactly | internal/clockify/circuit_breaker.go:112-138 | every verdict, read off the history of the endpoint: admitted while fewer failures than the threshold came since the last non-failure, and past the open duration while probes are left; otherwise rejected, with the wait it names |
| CircuitBreaker.Breaker.After | internal/clockify/circuit_breaker.go:142-173 | the outcome is logged once and lands in the run model, in whatever state it arrives |
| CircuitBreaker.Breaker.Settle | internal/clockify/circuit_breaker.go:150-172 | what an outcome does to the state of its key, in every mode, and to no other key |
| CircuitBreaker.RunInParts | internal/clockify/circuit_breaker.go:112-197 | runs compose, so the events of a request can be placed anywhere in a longer log |
| CircuitBreaker.KeysAreIndependent | internal/clockify/circuit_breaker.go:112-197 | under every interleaving a key's state is the fold of its own events |
| CircuitBreaker.EveryKeyExplained | internal/clockify/circuit_breaker.go:112-197 | in every reachable state: Closed counts the current run of failures and stays below the threshold, Open holds the time of the latest failure, HalfOpen counts the admissions since entry, between one and the probe limit |
| CircuitBreaker.EarlyAdmissionExactly | internal/clockify/circuit_breaker.go:112-173 | within the open duration of a failure a request is admitted there if and only if fewer failures than the threshold were recorded since the last non-failure, whatever other endpoints do |
| CircuitBreaker.NoEarlyAdmission | internal/clockify/circuit_breaker.go:112-173 | nothing is admitted at an endpoint within the open duration of a failure that left it Open, unless a non-failure came there in between, whatever other endpoints do |
| CircuitBreaker.LateNonFailureReadmits | internal/clockify/circuit_breaker.go:69-72 | a run in which a late outcome lets a request through one tick after the endpoint opened |
| CircuitBreaker.OutcomeCloses | internal/clockify/circuit_breaker.go:142-173 | an outcome closes a tripped endpoint, probing or not, if and only if it is not a failure |
| CircuitBreaker.EpisodeBound | internal/clockify/circuit_breaker.go:112-138 | until its next outcome a tripped endpoint admits at most the probe limit, admissions in flight included, whatever other endpoints do |
| CircuitBreaker.RetryAfterIsExact | internal/clockify/circuit_breaker.go:112-138 | after any history, a rejection by an Open endpoint names a wait in (0, open duration] after which the next request there is admitted, and no shorter wait would do, whatever other endpoints do |
| CircuitBreaker.RetryAfterHelpsExactly | internal/clockify/circuit_breaker.go:27-33 | for every rejection the wait is in (0, open duration], and waiting it out gets the next request in if and only if the endpoint was Open |
| CircuitBreaker.SaturatedProbe | internal/clockify/circuit_breaker.go:132-136 | a reachable half-open endpoint that rejects although it is due |
| UpstreamClient.Client.constructor | internal/clockify/client.go:119-160 | a negative retry count means no retries |
| UpstreamClient.RepeatableExactly | internal/clockify/client.go:868-875 | a method is retried exactly if its letters, in any case, spell GET, HEAD, OPTIONS or PUT |
| UpstreamClient.MutationsAreNotRepeatable | internal/clockify/client.go:868-875 | nothing that spells POST, PATCH or DELETE in any case, and no empty method, is retried |
| UpstreamClient.FollowedExactly | internal/clockify/client.go:854-906 | an attempt is followed by another exactly if there are budget and time, no interrupt, the verb spells one of the four, nothing was cancelled or past its deadline, and the error is an API error 429, 502, 503 or 504 or, without one, a network error |
| UpstreamClient.ResultExactly | internal/clockify/client.go:633-687 | after its last attempt the caller gets success, the error of the interrupted wait, or the error of that attempt, by the same conditions written out |
| UpstreamClient.Client.Record | internal/clockify/client.go:689-694 | one logged outcome, of the class of the given reply |
| UpstreamClient.Client.Pause | internal/clockify/client.go:645-661 | the wait before an attempt passes exactly if another attempt is due, and otherwise ends the request with its one record |
| UpstreamClient.Client.Attempt | internal/clockify/client.go:663-680 | an attempt that is not followed by another ends the request with its one record; otherwise the next wait is known |
| UpstreamClient.Client.SendAttempts | internal/clockify/client.go:641-687 | an admitted request makes one more call on the breaker than the others do meanwhile: the outcome of its last attempt, after at most retries plus one attempts |
| UpstreamClient.Client.DoRequestValues | internal/clockify/client.go:633-687 | for every transport, deadline and sleep, and whatever other requests do to the shared breaker meanwhile: a rejected request sends and records nothing; an admitted one adds exactly two entries of its own to the log of breaker calls, its admission and one outcome, the class of the last attempt; at most retries plus one attempts; one attempt only for POST, PATCH, DELETE in any case and for every verb other than GET, HEAD, OPTIONS and PUT; the caller gets the result of the last attempt or the error that ended the wait |
| UpstreamClient.ReplyCloses | internal/clockify/circuit_breaker.go:69-72 | a tripped endpoint closes on a success and, besides, exactly on cancellations, deadlines, breaker errors, API errors outside 500 to 599, and errors that are neither API nor network errors |
| UpstreamClient.CancelledProbeCloses | internal/clockify/client.go:908-924 | a run in which a cancelled probe closes a half-open endpoint |
| SharedBreaker.EveryRunReportsOnce | internal/clockify/client.go:633-694 | in every interleaving of requests on one breaker, each request was refused and recorded nothing, or is under way and has recorded nothing, or recorded once, after its attempts, the class of the last one; the breaker is in the state its calls lead to |
| SharedBreaker.OneOutcomePerAdmission | internal/clockify/client.go:633-694 | counted per request: one record if it was admitted and is over, none otherwise; at most retries plus one attempts, and one for POST, PATCH, DELETE in any case and every verb other than GET, HEAD, OPTIONS and PUT |
| SharedBreaker.LoopIsARun | internal/clockify/client.go:633-694 | what the retry loop does from any reachable state, with any actions of other requests between its own, is a run of that model; it adds the two breaker calls of its contract around those of the others |
| JsonSchema.ReadTypes | internal/jsonschema/validator.go:154-171 | the type names a schema lists, decoded or typed as strings; empty ones are left out of decoded lists only |
| JsonSchema.NamesExactly | internal/jsonschema/validator.go:154-171 | the names of a decoded list are its strings that are not empty |
| JsonSchema.ReadStrings | internal/jsonschema/validator.go:412-429 | a list of strings, decoded or typed as such, or nothing if any item is not one |
| JsonSchema.StringsExactly | internal/jsonschema/validator.go:412-429 | the names read are those of the typed list, or item by item those of a list of strings only |
| JsonSchema.EscapePtr | internal/jsonschema/validator.go:512-537 | the escaped form of section 4 of RFC 6901, also on the fast path |
| JsonSchema.JoinPtr | internal/jsonschema/validator.go:507-510 | the pointer of a member |
| JsonSchema.Validate | internal/jsonschema/validator.go:70-75 | no error if and only if the value conforms; an error's pointer, read back per RFC 6901, leads to the place that breaks the schema: the member or item whose own keyword fails, the missing required name, or the unknown one |
| JsonSchema.BlameIsDeserved | internal/jsonschema/validator.go:77-281 | nothing is blamed in a value that conforms |
| JsonSchema.TypeAlone | internal/jsonschema/validator.go:115-152 | a schema with only a type accepts exactly the values of that type; an integer is a whole number within 64 bits |
| JsonSchema.UnionAlone | internal/jsonschema/validator.go:91-101 | a schema with several types accepts the values of any of them |
| JsonSchema.OtherEnumAlone | internal/jsonschema/validator.go:375-388 | options typed as strings accept those strings, and options that are no list accept everything |
| JsonSchema.EnumAlone | internal/jsonschema/validator.go:375-397 | a schema with only options accepts exactly the values that are one of them |
| JsonSchema.RequiredAlone | internal/jsonschema/validator.go:188-241 | required names bind objects and nothing else |
| JsonSchema.PropertiesAlone | internal/jsonschema/validator.go:188-241 | described members are checked where they are present |
| JsonSchema.ClosedAlone | internal/jsonschema/validator.go:188-241 | a closed schema without properties accepts no object with members |
| JsonSchema.AnyOfAlone | internal/jsonschema/validator.go:265-280 | a schema with only anyOf accepts exactly what some object option of its list accepts |
| JsonSchema.BoundedNumber | internal/jsonschema/validator.go:325-345 | both bounds belong to the range |
| JsonSchema.TypedArray | internal/jsonschema/validator.go:243-263 | long enough, and every item conforms |
| JsonSchema.SizedString | internal/jsonschema/validator.go:282-312 | length limits are inclusive, and the pattern binds the whole text |
| JsonSchema.FormattedString | internal/jsonschema/validator.go:347-365 | three formats bind, every other is an annotation |
| JsonSchema.ValidateAt | internal/jsonschema/validator.go:77-113 | the same below any pointer: enum, any of the listed types, anyOf |
| JsonSchema.ValidateType | internal/jsonschema/validator.go:115-152 | conformance to one type name, unknown names included |
| JsonSchema.IsInt64Exactly | internal/jsonschema/validator.go:314-323 | the integer test passes if and only if the number equals some integer from -2^63 up to 2^63 - 1 |
| JsonSchema.ValidateObjectMembers | internal/jsonschema/validator.go:188-241 | required, additionalProperties and properties, for every iteration order of both maps |
| JsonSchema.ValidateArray | internal/jsonschema/validator.go:243-263 | minItems and items, with the index as reference token |
| JsonSchema.CheckAnyOf | internal/jsonschema/validator.go:265-280 | succeeds exactly when some object option accepts the value |
| JsonSchema.CheckEnum | internal/jsonschema/validator.go:375-397 | the value is one of the listed options, decoded or typed as strings: numbers are equal by value, anything nested by its Go value; anything else allows every value |
| JsonSchema.DeepEqualExactly | internal/jsonschema/validator.go:399-407 | an option equals a value exactly if it is that value, decoded, at every depth |
| JsonSchema.CheckNumericBounds | internal/jsonschema/validator.go:333-345 | both bounds are inclusive |
| JsonSchema.CheckString | internal/jsonschema/validator.go:282-312 | length in bytes, anchored pattern and format |
| JsonSchema.AnchoredExactly | internal/jsonschema/validator.go:544-564 | the compiled pattern starts with `^`, ends with `$`, and is the given text but for one character at each end that lacked its anchor |
| JsonSchema.IsSimpleEmail | internal/jsonschema/validator.go:367-373 | exactly one at sign, something before it, a dot after it |
| JsonSchema.EmailExactly | internal/jsonschema/validator.go:367-373 | the text is a name that is not empty, an at sign, and a domain with a dot, without another at sign |
| Text.UnescapeEscape | internal/jsonschema/validator.go:512-537 | decoding per section 4 of RFC 6901 (first `~1`, then `~0`) undoes the escaping |
| Text.PointerRoundTrip | internal/jsonschema/validator.go:507-537 | a written pointer is read back as the same tokens |
| Text.DecimalRoundTrip | internal/jsonschema/validator.go:258-261 | an array index written in decimal is read back |
| Text.DecimalGrowsSlowly | internal/mcp/response_size_guard.go:127-138 | a count that grows never loses digits and gains at most one per unit |
| Text.DigitsExactly | internal/mcp/tools.go:190-203 | a text is read as a number exactly if it is not empty and has only digits, each worth ten times the next |
| Text.TrimSpaceCuts | internal/mcp/tools.go:190-203 | what is cut off both ends is white space, and what is left begins and ends with none |
| SizeGuard.EncoderMeasuresLength | internal/mcp/response_size_guard.go:95-125 | compact JSON lengths have the three properties that the search relies on, for every list that fits in memory |
| SizeGuard.CappedGrows | internal/mcp/response_size_guard.go:95-138 | the encoded envelope grows strictly with every kept item, although `returned` and `dropped` change width in opposite directions |
| SizeGuard.CappedKeepsPrefix | internal/mcp/response_size_guard.go:53-77 | exactly the first items are kept unless the field is called `count`, returned and dropped add up to the total, and the rest of the envelope is untouched |
| SizeGuard.CappedMarks | internal/mcp/response_size_guard.go:127-138 | a cut envelope is marked truncated and size capped with a hint, an existing counter says how many items are left, and nothing else in data or metadata changes |
| SizeGuard.Envelope.Set | internal/mcp/response_size_guard.go:53-77 | the list is replaced in place and an existing counter refreshed |
| SizeGuard.Envelope.AddSizeCapMeta | internal/mcp/response_size_guard.go:127-138 | the metadata is stamped and other metadata kept |
| SizeGuard.Envelope.ShrinkListToBudget | internal/mcp/response_size_guard.go:95-125 | success leaves the longest proper prefix that fits, as if cut once from the original; failure means that none fits |
| SizeGuard.LargestArrayField | internal/mcp/response_size_guard.go:79-93 | no list field is longer than the chosen one |
| SizeGuard.Envelope.TruncateDataToBudget | internal/mcp/response_size_guard.go:53-77 | the same for the data list or the longest list among its fields |
| SizeGuard.ToolResultEnvelopeGuarded | internal/mcp/response_size_guard.go:18-43 | a positive budget is never exceeded by a delivered result; a result that fits is not touched; a list is cut only as much as needed |
| Session.ProgressTokenKeyInjective | internal/mcp/server.go:492-501 | string and number tokens never share a key |
| Session.RpcIdKeyExactly | internal/mcp/server.go:453-465 | two ids share an entry exactly if they share their text |
| Session.TokenRefusedExactly | internal/mcp/server.go:505-517 | a call is turned away at once exactly if another call holds the same token |
| Session.Inflight.Register | internal/mcp/server.go:400-411 | the call's cancel function is stored under its id, replacing an earlier one |
| Session.Inflight.Unregister | internal/mcp/server.go:414-422 | the id's entry is gone and no other |
| Session.Inflight.Cancel | internal/mcp/server.go:426-441 | exactly the stored cancel function is taken, once |
| Session.Inflight.CancelAll | internal/mcp/server.go:533-549 | every stored cancel function is taken, exactly once per key, in the order the map yields |
| Session.EveryRunIsSound | internal/mcp/server.go:1050-1077 | the invariant of every interleaving: causes match the log, stored and fired cancellations belong to their calls, tokens are distinct |
| Session.SuppressionIsExact | internal/mcp/server.go:1050-1077 | a call is answered at most once, after its handler returned once; the reply is suppressed if and only if the handler failed and the first thing to end the call's own context was a cancellation that took its own cancel function; repeat initializes and id reuse suppress nothing |
| Session.ProgressTokensAreExclusive | internal/mcp/server.go:505-524 | no two calls in flight hold the same progress token, in any reachable state |
| Session.CancellableExactly | internal/mcp/server.go:400-469 | in every run a call can be cancelled under a key if and only if it entered under it and since then no call with that key has entered or been unlisted, and no cancellation or initialize took it |
| Session.IdsWithTheSameText | internal/mcp/server.go:453-465 | a run in which cancelling the number 1 takes the cancel function of the string "1" and leaves the first call without one |
| ProgressGate.Tokens.Register | internal/mcp/server.go:505-517 | a token in use is refused and its gate left alone |
| ProgressGate.Tokens.Release | internal/mcp/server.go:519-524 | the gate is gone, so later progress is refused |
| ProgressGate.Tokens.AllowProgress | internal/mcp/server.go:1391-1414 | one step of the gate of that token and of no other |
| ProgressGate.AllowedExactly | internal/mcp/server.go:1391-1414 | a notification passes exactly if its value is above that of every one sent before and fewer than ten of those sent are in the window in force |
| ProgressGate.GateRemembersSent | internal/mcp/server.go:1391-1414 | what the gate stores is the last value sent, the last window opened and how many were sent in it |
| ProgressGate.ProgressIsOrderedAndBounded | internal/mcp/server.go:1391-1414 | allowed values strictly increase; any half-open second holds at most nineteen of them, and at most ten unless a window opens within it after its start |
| ProgressGate.QuietSecond | internal/mcp/server.go:1391-1414 | every second into which no window opens after its start holds at most ten notifications |
| ProgressGate.RoomInSecond | internal/mcp/server.go:1391-1414 | with c notifications counted by the window in force just before a second, the second holds at most 20 - c, and at most ten if no window is in force |
| ProgressGate.RoomCanBeFilled | internal/mcp/server.go:1391-1414 | that many are reached, for every c |
| ProgressGate.NineteenInOneSecond | internal/mcp/server.go:1367-1414 | a run in which nineteen notifications pass within one second |
| ProgressGate.RegistrationsAreIndependent | internal/mcp/server.go:505-524 | each registration starts a gate of its own and only its own attempts move it |
| Dispatch.FamilyLimiter.TryAcquire | internal/mcp/rate_limit.go:134-153 | a slot is taken only if one is free and given up on only if none is or the context has ended |
| Dispatch.FamilyLimiter.Release | internal/mcp/rate_limit.go:134-153 | the slot of the same family comes back |
| Dispatch.FamilyExactly | internal/mcp/rate_limit.go:134-153 | by the six bits: one of five makes a call high-risk, Write without those an ordinary write, none leaves it unlimited |
| Dispatch.EveryRunRespectsCaps | internal/mcp/tools.go:458-471 | in every reachable state at most one high-risk and two ordinary-write handlers run, and taken slots are exactly those of the calls that hold them |
| Dispatch.CapsByBits | internal/mcp/rate_limit.go:134-153 | in every run, by the bits of the tools: two high-risk handlers never run at once, nor three ordinary writes, and a call with none of the six bits never waits for its family |
| Dispatch.WaitsExactly | internal/mcp/rate_limit.go:134-153 | in every run a call waits only for a full house: all dispatch slots taken, one high-risk handler running, or two ordinary writes |
| Dispatch.NoDeadlock | internal/mcp/server.go:683-719 | while a call waits for a slot of either kind, some step other than a timeout is enabled |
| Dispatch.EverythingDrains | internal/mcp/server.go:683-719 | from every such state all calls can finish without a timeout, in a known number of steps |
| Dispatch.StepsUseWork | internal/mcp/server.go:683-719 | every step but an arrival uses up work, so there is no livelock |
| TokenBucket.NewTokenBucket | internal/mcp/rate_limit.go:31-41 | a limit that is not positive means no bucket; otherwise the bucket starts full |
| TokenBucket.Limiter.AllowWithRetry | internal/mcp/rate_limit.go:50-71 | one step of the history model, and a refusal names the least whole number of seconds after which a lone retry passes |
| TokenBucket.RiskRateLimiter.Allow | internal/mcp/rate_limit.go:95-115 | only the bucket of the call's own tier is touched |
| TokenBucket.RiskRateLimiter.BucketFor | internal/mcp/rate_limit.go:102-115 | destructive first, then the four sensitive bits, then write, then read |
| TokenBucket.CeilIsLeast | internal/mcp/rate_limit.go:62-68 | rounding up gives the least sufficient wait |
| TokenBucket.TokensPayForCalls | internal/mcp/rate_limit.go:50-71 | tokens stay within the capacity, and admitted calls never exceed what was there plus what was refilled |
| TokenBucket.AnyIntervalIsBounded | internal/mcp/rate_limit.go:50-71 | over every history, any interval of L seconds admits at most the capacity plus L times the per-minute limit over sixty |
| TokenBucket.TokensExactly | internal/mcp/rate_limit.go:50-71 | after every history the tokens are the least room that any stretch of it has left |
| TokenBucket.AdmittedExactly | internal/mcp/rate_limit.go:50-71 | in every history a call passes exactly if, counted from any earlier call on, it keeps the admitted calls within the limit plus what the elapsed time earns |
| Subscriptions.ResourceSubscriptions.Add | internal/mcp/resources.go:77-99 | subscribing twice counts once |
| Subscriptions.ResourceSubscriptions.Decrement | internal/mcp/resources.go:101-127 | the count goes down by one and a zero is not kept |
| Subscriptions.ResourceSubscriptions.Remove | internal/mcp/resources.go:101-127 | only an existing pair is removed, and no empty set is kept |
| Subscriptions.ResourceSubscriptions.DropNotifier | internal/mcp/resources.go:129-151 | all pairs of one notifier go and no other, for every iteration order |
| Subscriptions.ResourceSubscriptions.HasAnyUri | internal/mcp/resources.go:153-161 | true exactly when somebody is subscribed |
| Subscriptions.ResourceSubscriptions.TargetsFor | internal/mcp/resources.go:163-180 | the subscribed peers, each once, and whether the sentinel is among the subscribers |
| Subscriptions.AddedKeepsCounts | internal/mcp/resources.go:77-99 | counts keep matching the relation, which gains exactly one pair |
| Subscriptions.WithoutKeepsCounts | internal/mcp/resources.go:101-151 | counts keep matching the relation, which loses exactly the given pairs |
| Subscriptions.NotifierHub.Add | internal/mcp/notifier_hub.go:20-30 | a fresh number for every notifier, also when one is added twice |
| Subscriptions.NotifierHub.Close | internal/mcp/notifier_hub.go:28-38 | subscriptions are dropped only by the first call of the closure |
| Subscriptions.NotifierHub.Notify | internal/mcp/notifier_hub.go:41-57 | every registered notifier is sent to, once per registration, so once each exactly when none is registered twice |
| Subscriptions.NotifierHub.NotifyResourceUpdated | internal/mcp/resources.go:324-359 | without the sentinel a peer is sent an update exactly if it is subscribed, and once; with it every registered notifier is, none twice exactly when none is registered twice, and no subscribed peer is missed exactly when all of them are registered |
| Subscriptions.BroadcastMayRepeat | internal/mcp/notifier_hub.go:20-30 | a run after which the sentinel branch delivers twice to one notifier |
| Subscriptions.BroadcastMayMiss | internal/mcp/resources.go:339-347 | a run after which the sentinel branch misses a subscribed peer |
| Subscriptions.EveryRunIsConsistent | internal/mcp/resources.go:77-180 | after every run counts equal the number of subscribers, nothing empty or zero is stored, and who is subscribed is what the last operation about the pair says |
| Subscriptions.CloseWorksOnce | internal/mcp/notifier_hub.go:20-39 | after its closure a notifier has no subscription left, and running the closure again at any later time changes nothing |
| Pagination.PaginationFromArgs | internal/tools/helpers_pagination.go:55-65 | page and page size are always in range: a request in range is honoured, a size above 200 becomes 200, anything else the default |
| Pagination.MaxRowsArg | internal/tools/helpers_pagination.go:86-95 | the row cap is always in range: a request in range is honoured, one above the ceiling becomes the ceiling, anything else the default |
| Pagination.PagesConcatenate | internal/tools/helpers_pagination.go:125-151 | consecutive pages of any size are a prefix of the list: no row is skipped or repeated |
| Pagination.CollectedArePages | internal/tools/helpers_pagination.go:110-123 | single-page calls, asked one by one, collect those consecutive pages |
| Pagination.RunListWithAutoPaginate | internal/tools/helpers_pagination.go:110-152 | the first min(N, max_rows) rows; an untruncated result is the whole list; the result agrees with what single-page calls of any page size collect; an error exactly when a page that is needed fails; the safety stop is unreachable |
| Pagination.FetchedExactly | internal/tools/helpers_pagination.go:125-151 | a page is needed exactly if it is the first, or those before it were full and too few |
| Pagination.SelectFrom | internal/tools/entries.go:488-496 | one batch adds exactly its matching rows inside the requested window and counts all matching ones |
| Pagination.KeptExactly | internal/tools/entries.go:488-496 | without server-side filtering the rows kept are those that match, in their order, and otherwise all |
| Pagination.ScanBatch | internal/tools/entries.go:488-496 | a batch moves window and count on by its own rows |
| Pagination.ListEntriesWithProjectFilter | internal/tools/entries.go:453-507 | the requested page of the filtered list and its full count, an upstream error exactly when a needed page fails, and the safety-stop error exactly from 200000 rows on |
| Pagination.FilteredPagesConcatenate | internal/tools/entries.go:453-507 | walking the filtered pages collects every matching row once and in order |
| ToolList.SortedListIsUnique | internal/mcp/tools.go:222-259 | a set of tools has one sorted list, so neither map order nor sorting algorithm can be seen |
| ToolList.BelowExactly | internal/mcp/tools.go:242-253 | a name is below another exactly if it is a proper start of it or smaller at the first difference |
| ToolList.RebuiltExactly | internal/mcp/tools.go:222-259 | the list has exactly the advertised tools, with the full output schema or the compact one, lower priorities first (50 by default) and names in order among equals |
| ToolList.OrderWithoutPriorities | internal/mcp/tools.go:242-253 | sorting by name alone agrees with sorting by priority when no tool has one |
| ToolList.Server.constructor | internal/mcp/server.go:362-376 | the registry has the last descriptor of every name |
| ToolList.Server.BuildToolList | internal/mcp/tools.go:222-259 | the advertised tools, each once, by priority and then name |
| ToolList.Server.ListTools | internal/mcp/tools.go:36-53 | a cached answer equals a fresh rebuild |
| ToolList.Server.ToolsListPage | internal/mcp/tools.go:150-168 | at most one page from the clamped cursor, with a next cursor exactly when tools are left |
| ToolList.PageExactly | internal/mcp/tools.go:150-168 | place by place the tools from the cursor on, as many as a page holds, with a next cursor exactly when tools are left, naming the first of them |
| ToolList.Server.ToolsListResult | internal/mcp/tools.go:101-126 | a cached answer equals page 0 of a fresh rebuild |
| ToolList.Server.HandleToolsList | internal/mcp/tools.go:128-148 | the page of a fresh rebuild at the cursor, or an error for a malformed one |
| ToolList.Server.InvalidateToolListCache | internal/mcp/tools.go:350-355 | nothing stale stays valid |
| ToolList.Server.SetAdvertisedTools | internal/mcp/server.go:381-395 | the advertised names, and no cached answer outlives the change |
| ToolList.CursorRoundTrip | internal/mcp/tools.go:177-205 | every cursor handed out is read back as its offset |
| ToolList.CursorExactly | internal/mcp/tools.go:177-205 | a cursor is read exactly if it is absent or null, or a text that, trimmed, is a numeral with an optional sign, not negative and within 64 bits |
| ToolList.FollowingCursorsCollectsAll | internal/mcp/tools.go:128-168 | following the cursors ends within one request per page and collects the whole list, each tool once and in order |

## Left out

- HTTP transport, multipart bodies, stdio framing, logging, tracing, audit files and panic recovery: I/O. One HTTP attempt is an arbitrary outcome.
- `encoding/json`: documents are values with equality instead of marshal-and-compare; decode errors, duplicate names and invalid UTF-8 do not occur. The size guard keeps only lengths.
- Floating point: numbers are reals, in the validator, the progress gate and the rate limiter; `json.Number`, NaN, and conversions out of the 64-bit range are not modelled, except that an integer must lie within 64 bits.
- Integer width: offsets, counters and times are unbounded integers; only the tools/list cursor is limited to 64 bits.
- SHA-256 is taken to be injective, and the random source to return tokens that were not issued before.
- The clock is a parameter; breaker, rate limiter and progress gate are proved for clocks that do not go backwards where a theorem says so.
- The policy classifier: an arbitrary predicate of tool and arguments says which calls need confirmation.
- The confirmation modes other than on and off, the envelopes sent back to clients and the audit metadata.
- Handlers: any result, at any time. Dispatch assumes that a handler returns eventually.
- Go pointers in maps (breaker endpoints, progress states, buckets in the index) are values in maps; the copies that keep callers from changing cached tools are therefore not captured.
- Locks: each critical section is one atomic step, and a method stands for one critical section.
- Circuit breaker: a nil breaker is covered by the client, and endpoint normalisation is not (keys are opaque).
- Retry loop: the computation of the back-off and of Retry-After from headers (both arbitrary), and the final error for a loop that ends without an error, which cannot happen.
- JSON schema: messages, the cache of compiled patterns, and the regexp and time libraries, which are arbitrary predicates.
- Resource feed: the order in which the cache evicts (any baseline may go at any time), marshalling errors, and which resources a mutation touches.
- Subscriptions: the delta envelope is sent unchanged.
- Session: validation of progress tokens and of request shapes; requests other than tools/call, cancellation and initialize.
- Rate limiter: the fixed 60-second answer for a bucket without refill, which no constructor builds.
- Size guard: lists of 10^21 items or more, whose counts the encoder would write with an exponent; the wording of the hint and of the too-large error; a list under the empty field name is never cut, as in the code.
- Project filter: the comparison of names (an arbitrary predicate) and the lookup of the project, whose outcome is a parameter.
- Auto-pagination of handlers that return whole tool results, which merges slices by reflection.
- Tool handlers, money arithmetic, configuration, time parsing, error translation, redaction, prompts, demo data: easy or I/O.
