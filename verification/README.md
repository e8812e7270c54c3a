# HOM Local: a verified model of its protocol and scheduling core

This project models, in Dafny, the parts of HOM Local that carry state, recursion or arithmetic, and proves what they
promise for every input, every run and every interleaving. `dafny verify dfyconfig.toml` checks all of it. Nothing here
executes the original program.

| module | what it models |
|---|---|
| `CanonicalJson`, `CanonicalParser` | the canonical JSON printer with sorted keys and a depth limit; a parser that undoes it |
| `Crypto` | the payload that is signed |
| `Envelope` | the envelope verifier: registration, clock window, replay cache, body hash, scopes, signature; building requests |
| `Server` | frames of many connections sharing one verifier, as interleaved steps verify, judge, dispatch |
| `Router` | the weighted queue with its 21-slot schedule |
| `RateLimit` | the fixed-window limiter |
| `VectorThresholds`, `Percentiles` | candidate search with exact rerank and its metrics; latency summaries |
| `McpFrames` | Content-Length framing |
| `FileRead`, `FileSearch` | chunked reads; directory search with a match limit |
| `McpRuntime` | the MCP session table under interleaved connects, calls, reconciliation, enabling and disabling |
| `FileWrites`, `FileWriteSteps` | previewed file writes, their store and their certificates: whole calls, and the steps of overlapping calls |
| `Decimal`, `Utf8`, `Strings`, `Sorting`, `Sequences`, `Results` | decimal text, UTF-8 and its byte order, trimming, the stable sort, slices, result values |

Where the source keeps state in an object or changes it step by step, the model has a class or a method with loops, and
its contract gives the new state as a function of the old one; the theorems are lemmas about those functions and about
runs of them. Clock readings, replies of processes, answers of the file system, hashes, signatures, the security policy
and the approximate search are parameters. Hypotheses about them are named predicates: `SteadyClock`, `KeyPair`,
`OnlySigned`, `NoCollision`, `CollisionFree`, `Consistent`, `DistinctScores`, `StoreNeverFails`, `LogNeverErased`.

Properties that hold only under a condition are given with the exact boundary:

- the replay cache is safe as long as the clock never falls back by more than `ttl - skew` (30 seconds with the defaults
  30 and 60), and with any larger fall a call can be replayed (`ClockBoundIsTight`);
- two clients share a replay-cache key for some nonces exactly when one id continues the other after a colon
  (`KeysCollideIff`);
- a minute admits at most `2 * limit - 1` calls, and that many can occur (`MinuteBoundIsMet`), as long as the clock does
  not run back; the bound grows with how far it may (`MinuteBoundWithFalls`) and is lost without such a limit
  (`UnboundedFalls`);
- chunked reading ends exactly when the chunk size is not zero or the file is empty (`EndsIff`);
- a disabled server whose entry was dropped gets a live session again without being enabled exactly when a connect was
  already past the check of its configuration (`DisabledRevivesIff`);
- previews and applies hold no lock between reading the store and writing it back: the stored log is up to date at every
  moment exactly when each call writes back the log then stored (`LogCurrentIff`, `InStepIff`), and overlapping applies of
  one replace or append all succeed (`OverlappingApplies`, `OverlapAppliesTwiceIff`);
- for calls that do not overlap the log is complete exactly when no call wrote back a store whose log it could not read
  (`LogIsCompleteIff`): an unreadable store counts as empty, so one such preview erases everything (`UnreadStoreLosesAll`);
- their applies of a preview outnumber its previews by at most the applies whose certificate the store failed to take
  (`EveryRun`); a stored preview can be applied twice exactly when it replaces or appends (`AppliedTwiceIff`);
- recall never exceeds the pool hit rate (`RecallAtMostHitRate`), and equals it for every candidate list exactly when no
  tie straddles place k (`RecallIsHitRateIff`; `RecallBoundary` when only part of the corpus is loaded); the best memory
  is preserved whenever it is a candidate exactly when no tie straddles the first place (`Top1Boundary`);
- an item of a queue that does not run short is out after exactly `Wait` pops (`ServedExactlyAtWait`).

## Model

| member | source | states |
|---|---|---|
| `Utf8.DecodeOfEncode` | crates/hom-ingress/src/capability_mesh.rs:6083-6084 | decoding undoes encoding, for every string: header lines are read as UTF-8 |
| `Utf8.ByteOrderIsCodePointOrder` | crates/hom-shared/src/canonical_json.rs:56-57 | the byte order Rust strings sort by is the order of code points |
| `Utf8.StringLeqIff` | crates/hom-shared/src/canonical_json.rs:56-57 | so one key stands before another exactly if it is a prefix of it or has the smaller character where they first differ |
| `Utf8.DecodeOnlyEncoded` | crates/hom-ingress/src/capability_mesh.rs:6083-6084 | decoding accepts nothing but encodings: no overlong form, no surrogate, nothing cut short |
| `Utf8.EncodeCharIs` | crates/hom-ingress/src/capability_mesh.rs:6075-6076 | the one to four bytes of each character |
| `Strings.TrimIs` | crates/hom-ingress/src/capability_mesh.rs:6097 | trimming takes white space off both ends and nothing else |
| `Strings.WhitespaceIs` | crates/hom-ingress/src/capability_mesh.rs:6097 | the 25 characters that Unicode calls white space |
| `Sorting.SortIsStable` | crates/hom-brain/src/services/admin.rs:580-595 | the sort keeps the order of members that tie |
| `Decimal.OfNatIs` | crates/hom-shared/src/canonical_json.rs:41 | decimal text is the one text of digits with that value and no zero in front of another digit |
| `Decimal.WritesDecimal` | crates/hom-shared/src/canonical_json.rs:41 | its digits are the usual ones, one per power of ten, with a minus sign in front of a negative number |
| `Decimal.ParseI64OfInt` | crates/hom-shared/src/envelope.rs:211-216 | parsing a formatted 64-bit time stamp gives it back |
| `Decimal.ParseUsizeOfNat` | crates/hom-ingress/src/capability_mesh.rs:6098 | parsing a formatted length gives it back |
| `Decimal.ParseI64Iff` | crates/hom-shared/src/envelope.rs:211-216 | what parses as a 64-bit integer: an optional sign, digits, a value in range |
| `Decimal.ParseUsizeIff` | crates/hom-ingress/src/capability_mesh.rs:6097 | what parses as a length: an optional plus sign, digits, a value in range |
| `CanonicalJson.WriteValue` | crates/hom-shared/src/canonical_json.rs:24-72 | at a given depth the printer gives the canonical text if no node below lies deeper than 32, and the depth error otherwise |
| `CanonicalJson.WriteItems` | crates/hom-shared/src/canonical_json.rs:45-55 | the same for an array, element by element with early failure |
| `CanonicalJson.WriteMembers` | crates/hom-shared/src/canonical_json.rs:56-71 | the same for an object, whose keys are sorted and looked up one by one |
| `CanonicalJson.CanonicalJson` | crates/hom-shared/src/canonical_json.rs:20-22 | the outcome for a whole value |
| `CanonicalJson.SortedMemberText` | crates/hom-shared/src/canonical_json.rs:56-69 | each piece of an object's text is a sorted key with the text of the value stored under it |
| `CanonicalJson.SortedKeysRise` | crates/hom-shared/src/canonical_json.rs:56-57 | the keys of an object are written in strictly rising order, character by character |
| `CanonicalJson.EscapeCharIs` | crates/hom-shared/src/canonical_json.rs:43 | which characters are escaped, and how each is written |
| `CanonicalJson.DepthLimitIs` | crates/hom-shared/src/canonical_json.rs:25-27 | 32 levels of arrays or objects are printed, 33 are refused |
| `CanonicalParser.ParseUndoesPrint` | crates/hom-shared/src/canonical_json.rs:24-72 | parsing the text of any value followed by anything that does not extend a number returns the value, members in key order, and exactly what followed |
| `CanonicalParser.SameTextIffSame` | crates/hom-shared/src/canonical_json.rs:24-72 | two values have the same text exactly when they are equal up to the order of object members at every level |
| `CanonicalParser.CanonicalIffSame` | crates/hom-shared/src/canonical_json.rs:20-72 | canonical text exists exactly when every node lies at depth at most 32, and is shared exactly by values equal up to member order |
| `CanonicalParser.SameDepth` | crates/hom-shared/src/canonical_json.rs:24-27 | member order does not change which depth limits a value meets |
| `CanonicalParser.TextNoControl` | crates/hom-shared/src/canonical_json.rs:43-69 | canonical text holds no character below the space |
| `Crypto.SigningPayload` | crates/hom-shared/src/crypto.rs:122-124 | the payload is canonical text, nonce and time stamp on lines of their own, or the depth error |
| `Crypto.SignPayload` | crates/hom-shared/src/crypto.rs:88-99 | decodes the key first, then signs exactly that payload: a bad key is reported before a body that lies too deep |
| `Crypto.VerifyPayload` | crates/hom-shared/src/crypto.rs:101-120 | decodes key and signature first, in this order, then checks the signature of exactly that payload |
| `Crypto.PayloadDeterminesParts` | crates/hom-shared/src/crypto.rs:122-124 | payloads are equal exactly when body (up to member order), nonce and time stamp are, whatever line breaks the nonce holds |
| `Envelope.KeyTsOfNonceKey` | crates/hom-shared/src/envelope.rs:174-175 | the time stamp parsed back out of a cache key is the one formatted into it |
| `Envelope.EnvelopeVerifier.WithClock` | crates/hom-shared/src/envelope.rs:118-134 | a new verifier has an empty cache and its clients by id, the last registration of an id winning |
| `Envelope.ByIdIsLast` | crates/hom-shared/src/envelope.rs:124-128 | the registration found under an id is the last one with this id |
| `Envelope.EnvelopeVerifier.PruneNonces` | crates/hom-shared/src/envelope.rs:209-217 | keeps exactly the keys whose parsed time stamp is at most the time to live old |
| `Envelope.EnvelopeVerifier.VerifyBody` | crates/hom-shared/src/envelope.rs:145-207 | verdict and new cache: completeness, registration, window, pruning, replay, depth, hash, scopes, signature, in that order |
| `Envelope.EnvelopeVerifier.VerifyRequest` | crates/hom-shared/src/envelope.rs:136-143 | the same for a request, refused untouched when it has no envelope |
| `Envelope.RefusedUntouched` | crates/hom-shared/src/envelope.rs:151-171 | in this order and with the cache untouched: an empty name, nonce or signature; a client not registered with this key; a time stamp more than the skew away from the clock in either direction |
| `Envelope.RefusedAsReplay` | crates/hom-shared/src/envelope.rs:173-177 | any other call leaves in the cache its own key and those whose time stamp is at most the time to live old, and is a replay exactly when its own was among these |
| `Envelope.CheckedInOrder` | crates/hom-shared/src/envelope.rs:179-207 | depth, hash, scopes, key and signature, in this order, each refusal exactly when its check is the first to fail, and acceptance exactly when all pass |
| `Envelope.VerdictIs` | crates/hom-shared/src/envelope.rs:145-207 | a call that was not refused before these checks gets their verdict |
| `Envelope.StepAgrees` | crates/hom-shared/src/envelope.rs:164-177 | one call gets the same verdict from the pruned cache and from one that never forgets, and what was dropped stays expired |
| `Envelope.PruningIsInvisible` | crates/hom-shared/src/envelope.rs:164-217 | over every run with a steady clock and skew at most the time to live, pruning changes no verdict |
| `Envelope.NeverAcceptedTwice` | crates/hom-shared/src/envelope.rs:168-177 | in such a run no client, nonce and time stamp is accepted twice |
| `Envelope.ClockBoundIsTight` | crates/hom-shared/src/envelope.rs:164-217 | with any larger fall of the clock a call is accepted, forgotten and accepted again |
| `Envelope.NonceKeyEqual` | crates/hom-shared/src/envelope.rs:174 | cache keys are equal exactly when time stamps agree and the joined client and nonce read the same |
| `Envelope.KeysCollideIff` | crates/hom-shared/src/envelope.rs:174 | two clients share a key for some nonces exactly when one id continues the other after a colon |
| `Envelope.ColonFreeKeysAreFaithful` | crates/hom-shared/src/envelope.rs:174 | for ids without a colon a key determines client, nonce and time stamp |
| `Envelope.BuildRequest` | crates/hom-shared/src/envelope.rs:221-250 | the request with body hash and signature of its own parameters, or the depth or signing error |
| `Envelope.BuiltRequestAccepted` | crates/hom-shared/src/envelope.rs:145-250 | a built request of a registered client is accepted exactly when names and nonce are not empty, it is in the window, fresh, and its scopes are granted and cover the required one |
| `Envelope.TamperedParamsRefused` | crates/hom-shared/src/envelope.rs:179-182 | other parameters under a built envelope are refused unless they differ in member order alone, and then nothing changes |
| `Envelope.AcceptedWasSigned` | crates/hom-shared/src/envelope.rs:198-201 | what is accepted was signed by the owner of the key: that body up to member order, that nonce, that time stamp |
| `Envelope.ScopesAreNotSigned` | crates/hom-shared/src/envelope.rs:184-201 | method and scopes lie outside the signed payload: an accepted call stays accepted under other scopes or another required scope exactly when these are granted and cover it |
| `Server.ProcessFrame` | crates/hom-brain/src/ipc/server.rs:84-137 | one frame of one connection is the verify, judge and dispatch steps in a row; the reply names the step that refused, a frame that does not parse included, or the frame is dispatched |
| `Server.DemandsSystem` | crates/hom-brain/src/ipc/server.rs:140-211 | the 42 methods that demand `system` |
| `Server.DemandsSave` | crates/hom-brain/src/ipc/server.rs:142-191 | the four that demand `memory:save` |
| `Server.DemandsRecall` | crates/hom-brain/src/ipc/server.rs:143 | the two that demand `memory:recall` |
| `Server.DemandsOpen` | crates/hom-brain/src/ipc/server.rs:144 | the one that demands `memory:open` |
| `Server.DemandsAnswer` | crates/hom-brain/src/ipc/server.rs:145 | the one that demands `memory:answer` |
| `Server.DemandsEventsRead` | crates/hom-brain/src/ipc/server.rs:146 | the one that demands `events:read` |
| `Server.DemandsEventsWrite` | crates/hom-brain/src/ipc/server.rs:147 | the one that demands `events:write` |
| `Server.DemandsDiagnostics` | crates/hom-brain/src/ipc/server.rs:153-188 | the ten that demand `diagnostics:read` |
| `Server.DemandsSecurity` | crates/hom-brain/src/ipc/server.rs:158-160 | the three that demand `security:read` |
| `Server.DemandsGatesRead` | crates/hom-brain/src/ipc/server.rs:192-196 | the five that demand `gates:read` |
| `Server.DemandsGatesWrite` | crates/hom-brain/src/ipc/server.rs:197-208 | the twelve that demand `gates:write` |
| `Server.DemandsNothingElse` | crates/hom-brain/src/ipc/server.rs:140-214 | there are no other scopes, and every other method is unknown |
| `Server.VerifyStepIs` | crates/hom-brain/src/ipc/server.rs:84-108 | what verifying leaves: a request past all checks is held for judgement, and the cache holds what has not expired and the key of the call |
| `Server.JudgedThenDispatched` | crates/hom-brain/src/ipc/server.rs:109-137 | only a verified request is judged, and only one the policy allowed is dispatched, behind all others |
| `Server.ApplyKeepsInv` | crates/hom-brain/src/ipc/server.rs:84-137 | every step of every connection keeps: requests in flight and dispatched are authorized and carry pairwise different cache keys |
| `Server.DispatchIsSafe` | crates/hom-brain/src/ipc/server.rs:84-214 | under every interleaving each dispatched request held a granted scope that its method requires, passed the policy, and none is dispatched twice |
| `Server.DispatchedHeld` | crates/hom-brain/src/ipc/server.rs:84-214 | spelled out: each dispatched request came from a registered client under its registered key, with the scope of its method asked for and granted, and the policy allowed it |
| `Server.GateWritesHeld` | crates/hom-brain/src/ipc/server.rs:197-208 | so none of the twelve gate-writing methods is dispatched without `gates:write` |
| `Router.ScheduleClass` | crates/hom-brain/src/ipc/router.rs:59-81 | which class each of the 21 slots of the schedule belongs to |
| `Router.WeightedQueue.constructor` | crates/hom-brain/src/ipc/router.rs:83-91 | a new queue is empty with its cursor at the start |
| `Router.WeightedQueue.Push` | crates/hom-brain/src/ipc/router.rs:93-103 | appends to its class unless that is full, and then reports class, length and cap |
| `Router.WeightedQueue.Pop` | crates/hom-brain/src/ipc/router.rs:105-121 | takes the front of the first class that waits from the cursor on and moves the cursor behind it; nothing exactly when all classes are empty |
| `Router.PushIs` | crates/hom-brain/src/ipc/router.rs:93-103 | a push goes to the back of its own class exactly while that holds less than its own cap, and changes nothing else |
| `Router.PopIs` | crates/hom-brain/src/ipc/router.rs:105-121 | a pop takes the front of the class whose slot comes first from the cursor on, puts the cursor behind that slot, and changes nothing else |
| `Router.ScanFindsAClass` | crates/hom-brain/src/ipc/router.rs:110-120 | the scan finds a class exactly when something is queued, so its fall-through is never reached |
| `Router.FirstInFirstOut` | crates/hom-brain/src/ipc/router.rs:93-121 | over any run, what a class gave out followed by what it holds is what it held followed by what it accepted, and caps hold |
| `Router.GapBoundsTurn` | crates/hom-brain/src/ipc/router.rs:59-81 | from any cursor each class comes round within 3, 6 or 21 slots |
| `Router.ServedAfterWait` | crates/hom-brain/src/ipc/router.rs:105-121 | whatever is pushed meanwhile, an item is out once the pops reach the slots until its turn |
| `Router.ServedWithinGap` | crates/hom-brain/src/ipc/router.rs:59-121 | an item with k items ahead in its class is out within 3(k+1), 6(k+1) or 21(k+1) pops |
| `Router.AdmittedItemIsServed` | crates/hom-brain/src/ipc/router.rs:93-121 | every admitted item is out within gap times cap pops |
| `Router.GapIsAttained` | crates/hom-brain/src/ipc/router.rs:59-81 | there are cursors from which each class waits its full gap |
| `Router.ServedExactlyAtWait` | crates/hom-brain/src/ipc/router.rs:105-121 | while no class runs short an item is out exactly when the pops reach the slots until its turn, for every run |
| `Router.WaitIsAttained` | crates/hom-brain/src/ipc/router.rs:59-121 | for every cursor, class and place there is a queue and a run with one pop fewer in which the item is not out |
| `Router.RoundShares` | crates/hom-brain/src/ipc/router.rs:59-81 | any 21 consecutive slots hold 16, 4 and 1 of the classes |
| `Router.RoundServesShares` | crates/hom-brain/src/ipc/router.rs:59-121 | from any cursor 21 pops of a loaded queue serve 16, 4 and 1 and bring the cursor back, with pushes in between |
| `Router.LongRunShares` | crates/hom-brain/src/ipc/router.rs:59-121 | over m such rounds the classes are served 16m, 4m and m times |
| `RateLimit.RateLimiter.Check` | crates/hom-ingress/src/rate_limit.rs:22-42 | verdict and new window of one key; all other windows stay |
| `RateLimit.OtherKeysNeverMatter` | crates/hom-ingress/src/rate_limit.rs:28-32 | a client fares for each class exactly as if it were served alone |
| `RateLimit.MinuteBound` | crates/hom-ingress/src/rate_limit.rs:33-41 | any 60 consecutive seconds admit at most twice the limit less one |
| `RateLimit.MinuteBoundIsMet` | crates/hom-ingress/src/rate_limit.rs:33-41 | that many can be admitted, for every limit |
| `RateLimit.FirstSecondsBound` | crates/hom-ingress/src/rate_limit.rs:33-41 | the first T seconds admit at most limit times (T / 60 + 1) |
| `RateLimit.RetryIsHonoured` | crates/hom-ingress/src/rate_limit.rs:37-39 | the first call at least the returned seconds after a refusal is admitted, and none in between |
| `RateLimit.LimitsHold` | crates/hom-ingress/src/rate_limit.rs:22-42 | these bounds for each client and class in every run by everybody under a clock that never runs back |
| `RateLimit.MinutesInNumbers` | crates/hom-ingress/src/rate_limit.rs:22-42 | no client gets more than 199 reads or 59 writes into any minute |
| `RateLimit.LimitsAre` | crates/hom-ingress/src/rate_limit.rs:24-28 | 100 reads and 30 writes, counted apart for each client |
| `RateLimit.JudgeIs` | crates/hom-ingress/src/rate_limit.rs:29-41 | when a window is started anew, when a call is counted and when it is refused |
| `RateLimit.MinuteBoundWithFalls` | crates/hom-ingress/src/rate_limit.rs:33-48 | with a clock that never falls back by more than d seconds any 60 consecutive seconds of readings admit at most limit times ((118 + d) / 60 + 1) |
| `RateLimit.UnboundedFalls` | crates/hom-ingress/src/rate_limit.rs:33-48 | n falls of the clock to the same second admit n times (limit - 1) calls in it, for every n |
| `VectorThresholds.ProfileThresholds` | crates/hom-brain/src/services/admin.rs:495-634 | exact list, reranked list, both ratios, top-1 flag and pass flag of one profile, or the first error; in a consistent profile recall is at most the hit rate and equals it when the top k cannot be crowded out, and the top-1 flag says whether the pool holds the best id when that cannot be |
| `VectorThresholds.OptionsFaultIs` | crates/hom-brain/src/services/admin.rs:496-509 | which parameter is found wrong first |
| `VectorThresholds.ProfileFaultIs` | crates/hom-brain/src/services/admin.rs:533-580 | past the parameters, which of store, number of memories and search is found wrong first, and when none is |
| `VectorThresholds.SizesAre` | crates/hom-brain/src/services/admin.rs:510-517 | the bounds and defaults of top k and pool size |
| `VectorThresholds.MinimaAre` | crates/hom-brain/src/services/admin.rs:518-531 | the bounds and defaults of the wanted minima |
| `VectorThresholds.RatioIs` | crates/hom-brain/src/services/admin.rs:619-624 | a ratio times its denominator is its numerator, all of something is 1, and nothing of nothing is 0 |
| `VectorThresholds.FullRecallIff` | crates/hom-brain/src/services/admin.rs:619-624 | recall is 1 exactly when hybrid search finds all of a top k that is not empty |
| `VectorThresholds.RecallAtMostHitRate` | crates/hom-brain/src/services/admin.rs:611-624 | ties included, recall never exceeds the pool hit rate |
| `VectorThresholds.PlaceWithinCrowd` | crates/hom-brain/src/services/admin.rs:580-609 | ties included, fewer memories stand before a candidate in the reranked list than loaded ones score at least as much |
| `VectorThresholds.PlacesAgree` | crates/hom-brain/src/services/admin.rs:580-609 | where the scores of the first p + 1 fall strictly a candidate stands no lower among the reranked than at place p of exact search, and in the same place if all better ones are candidates |
| `VectorThresholds.RecallBoundary` | crates/hom-brain/src/services/admin.rs:580-624 | for any loaded part of the corpus, recall equals the hit rate for every candidate list exactly when each loaded memory of the top k has at most k loaded memories scoring as much |
| `VectorThresholds.RecallIsHitRateIff` | crates/hom-brain/src/services/admin.rs:580-624 | with the whole corpus loaded, they are equal for every candidate list exactly when no tie straddles place k |
| `VectorThresholds.RecallIsHitRate` | crates/hom-brain/src/services/admin.rs:611-624 | with distinct scores hybrid search finds exactly what the pool contains of the exact top k, so both ratios agree |
| `VectorThresholds.Top1Boundary` | crates/hom-brain/src/services/admin.rs:625-627 | top 1 is preserved exactly when the pool contains the best id, for every candidate list, exactly when no other loaded memory scores as much, that is when no tie straddles place 1 |
| `VectorThresholds.Top1PreservedIff` | crates/hom-brain/src/services/admin.rs:625-627 | with distinct scores the best memory is preserved exactly when the pool contains it |
| `VectorThresholds.CoverBoundary` | crates/hom-brain/src/services/admin.rs:580-615 | the hybrid list is the exact one, in order, exactly when the pool covers it, for every candidate list, exactly when part of the top k is not loaded or none of it ties with a loaded memory behind it |
| `VectorThresholds.StrictIffFalling` | crates/hom-brain/src/services/admin.rs:580-615 | with the whole corpus loaded the latter means that the scores fall strictly through the first k places |
| `VectorThresholds.CoveringPoolIsExact` | crates/hom-brain/src/services/admin.rs:580-615 | with distinct scores the hybrid list is the exact list, in order, exactly when the pool covers it |
| `VectorThresholds.ExactDescends` | crates/hom-brain/src/services/vector_index.rs:58-83 | with distinct scores exact search lists the corpus strictly by falling score, each id once |
| `VectorThresholds.TiesCanLowerRecall` | crates/hom-brain/src/services/admin.rs:611-624 | with a tie across place k and the whole corpus loaded some candidate list has a recall below its hit rate |
| `Percentiles.LatencySummary` | crates/hom-brain/src/services/admin.rs:1518-1533 | minimum, mean, three percentiles and maximum of the durations, all zero when there are none |
| `Percentiles.SharesAre` | crates/hom-brain/src/services/admin.rs:1518-1533 | its percentiles are those of 50, 95 and 99 in a hundred, its ends the first and last of the sorted durations |
| `Percentiles.MeanIs` | crates/hom-brain/src/services/admin.rs:1518-1533 | its mean is the sum by the number |
| `Percentiles.RankIs` | crates/hom-brain/src/services/admin.rs:1535-1542 | the rank of a share is the least that covers it |
| `Percentiles.PercentileMeaning` | crates/hom-brain/src/services/admin.rs:1535-1542 | the percentile is a listed value with at least r values no larger and n - r + 1 no smaller, r the least rank covering the share |
| `Percentiles.PercentileMonotone` | crates/hom-brain/src/services/admin.rs:1535-1542 | a larger share never gives a smaller percentile, and all lie between the ends |
| `Percentiles.SummaryOrdered` | crates/hom-brain/src/services/admin.rs:1518-1533 | min <= p50 <= p95 <= p99 <= max, and min and max bound every duration |
| `Percentiles.SummaryForgetsOrder` | crates/hom-brain/src/services/admin.rs:1518-1533 | permuting the durations does not change the summary |
| `McpFrames.Pipe.WriteFrame` | crates/hom-ingress/src/capability_mesh.rs:6073-6078 | appends the length header, the blank line and the body |
| `McpFrames.Pipe.ReadLine` | crates/hom-ingress/src/capability_mesh.rs:6083-6084 | takes the bytes up to the first line feed, or all, and refuses those that are not UTF-8 |
| `McpFrames.Pipe.ReadNext` | crates/hom-ingress/src/capability_mesh.rs:6080-6115 | reads header lines to the blank one, then the body, and parses it, or reports end of stream, bad UTF-8, a missing length or bad JSON; what is left to read in each case |
| `McpFrames.HeadersRead` | crates/hom-ingress/src/capability_mesh.rs:6082-6102 | any block of header lines is read to its end, the last content length counts, and what follows is left |
| `McpFrames.HeaderStepIs` | crates/hom-ingress/src/capability_mesh.rs:6095-6100 | a header sets the length if its name is content-length in any mix of cases, and every other line leaves it |
| `McpFrames.OtherHeadersDoNotMatter` | crates/hom-ingress/src/capability_mesh.rs:6080-6110 | a frame reads back with any other headers before and after its length |
| `McpFrames.MissingLengthRefused` | crates/hom-ingress/src/capability_mesh.rs:6101-6106 | headers without a length are refused, and what follows is left to read |
| `McpFrames.FrameIs` | crates/hom-ingress/src/capability_mesh.rs:6073-6078 | a frame to the last byte |
| `McpFrames.ReadUndoesWrite` | crates/hom-ingress/src/capability_mesh.rs:6073-6115 | reading a written frame gives its body, whatever bytes it holds, and leaves what follows |
| `McpFrames.StreamRoundTrips` | crates/hom-ingress/src/capability_mesh.rs:6073-6115 | reading as many frames as were written gives the bodies in order and leaves exactly the rest |
| `McpFrames.TruncatedBodyRefused` | crates/hom-ingress/src/capability_mesh.rs:6109-6110 | a body that is cut short is refused |
| `FileRead.FurtherChunk` | crates/hom-ingress/src/capability_mesh.rs:6770-6782 | a read that does not reach the end returns a full chunk and the offset behind it |
| `FileRead.ChunkIs` | crates/hom-ingress/src/capability_mesh.rs:6770-6781 | what a read returns before, at and behind the end of the file |
| `FileRead.SizeIs` | crates/hom-ingress/src/capability_mesh.rs:6761 | 64 KiB unless said otherwise, and never more than 256 KiB |
| `FileRead.ChunksAreTheFile` | crates/hom-ingress/src/capability_mesh.rs:6758-6782 | following the next offsets returns the file, each byte once and in order, in the number of reads needed |
| `FileRead.ReadsNeededIsCeiling` | crates/hom-ingress/src/capability_mesh.rs:6761-6771 | that number is the quotient rounded up, and at least one |
| `FileRead.EndsIff` | crates/hom-ingress/src/capability_mesh.rs:6758-6782 | following the offsets ends exactly when the size is not zero or the file is empty |
| `FileSearch.VisitLines` | crates/hom-ingress/src/capability_mesh.rs:6697-6711 | the matching lines of a file, cut off at the limit |
| `FileSearch.Visit` | crates/hom-ingress/src/capability_mesh.rs:6647-6712 | with its early exits the search collects exactly the first matches of the unlimited search after those already collected, up to the limit |
| `FileSearch.Search` | crates/hom-ingress/src/capability_mesh.rs:6618-6645 | a search returns a prefix of the unlimited matches, as long as the limit allows |
| `FileSearch.UpToTwice` | crates/hom-ingress/src/capability_mesh.rs:6655-6681 | collecting up to the limit in two goes is collecting at once |
| `FileSearch.FindsEveryReachableMatch` | crates/hom-ingress/src/capability_mesh.rs:6661-6712 | the unlimited search finds exactly the matches of the files reachable without a skipped name |
| `FileSearch.LineMatchesComplete` | crates/hom-ingress/src/capability_mesh.rs:6700-6711 | each line that contains the query is found, under its number, and nothing else |
| `FileSearch.ContainsIff` | crates/hom-ingress/src/capability_mesh.rs:6684-6701 | a text contains another if it is that with something before and after |
| `FileSearch.NameMatchIs` | crates/hom-ingress/src/capability_mesh.rs:6680-6695 | the name search finds files of at most 256 KiB by name or path |
| `FileSearch.ContentMatchIs` | crates/hom-ingress/src/capability_mesh.rs:6696-6711 | what the content search finds is a line of a readable file of at most 256 KiB that contains the query |
| `FileSearch.EveryLineIsFound` | crates/hom-ingress/src/capability_mesh.rs:6696-6711 | it finds every such line |
| `FileSearch.LinesAre` | crates/hom-ingress/src/capability_mesh.rs:6699 | the lines of a text stand between its line feeds, without a carriage return at the end |
| `FileSearch.LineMatchIs` | crates/hom-ingress/src/capability_mesh.rs:6701-6706 | a reported line shows its first 240 characters |
| `FileSearch.SkippedIs` | crates/hom-ingress/src/capability_mesh.rs:6667-6672 | the five names that are skipped |
| `FileSearch.LimitIs` | crates/hom-ingress/src/capability_mesh.rs:6622-6626 | 50 matches unless said otherwise, and never more than 200 |
| `McpRuntime.Runtime.InsertConnecting` | crates/hom-ingress/src/capability_mesh.rs:1560-1577 | a connecting row without a session replaces the entry; sessions still match rows |
| `McpRuntime.Runtime.InsertConnected` | crates/hom-ingress/src/capability_mesh.rs:1578-1589 | a connected row with its session and the tools this session listed replaces the entry; sessions still match rows |
| `McpRuntime.Runtime.RecordFailed` | crates/hom-ingress/src/capability_mesh.rs:1643-1669 | a failed row without a session replaces the entry; sessions still match rows |
| `McpRuntime.Runtime.Call` | crates/hom-ingress/src/capability_mesh.rs:1695-1827 | outcome, entry and request sent: approval, connection and tool are checked first; a failed request costs the session; what is sent goes to a session that listed the tool |
| `McpRuntime.CallIs` | crates/hom-ingress/src/capability_mesh.rs:1695-1768 | when a tool call is refused and for what reason, and when it is sent |
| `McpRuntime.OnlyApprovedCalls` | crates/hom-ingress/src/capability_mesh.rs:1703-1726 | nothing is sent without approval, and an unapproved call changes nothing |
| `McpRuntime.SentIs` | crates/hom-ingress/src/capability_mesh.rs:1769-1827 | what a request that was sent does to its entry, by whether the reply answers it |
| `McpRuntime.Runtime.ReconcileSessions` | crates/hom-ingress/src/capability_mesh.rs:2919-2956 | exactly the entries whose process is gone become failed rows without session and tools; sessions still match rows |
| `McpRuntime.ReconcileIs` | crates/hom-ingress/src/capability_mesh.rs:2919-2956 | the same entry by entry |
| `McpRuntime.Runtime.Remove` | crates/hom-ingress/src/capability_mesh.rs:1907-1911 | drops the entry of a disabled server; sessions still match rows |
| `McpRuntime.ApplyKeepsSound` | crates/hom-ingress/src/capability_mesh.rs:1510-1960 | every step of every request keeps the agreement of rows, sessions, tools and requests sent |
| `McpRuntime.SessionsMatchRows` | crates/hom-ingress/src/capability_mesh.rs:1510-1960 | in every reachable state an entry holds a session exactly when connected, shows the tools that session listed, and tool requests only went to sessions that had listed the tool |
| `McpRuntime.RequestIdsAreFresh` | crates/hom-ingress/src/capability_mesh.rs:6047-6059 | in every interleaving the tool requests of a session carry strictly rising ids |
| `McpRuntime.RequestIdsCount` | crates/hom-ingress/src/capability_mesh.rs:6047-6050 | namely 3, 4, 5 and so on |
| `McpRuntime.SentWasApproved` | crates/hom-ingress/src/capability_mesh.rs:1703-1726 | in every interleaving each tool request came from a call that was approved, for that tool |
| `McpRuntime.BeginIs` | crates/hom-ingress/src/capability_mesh.rs:1510-1559 | a connect starts a process only for a server that is configured, enabled and run over stdio |
| `McpRuntime.MarkConnectingIs` | crates/hom-ingress/src/capability_mesh.rs:1560-1577 | only a connect past the check shows a connecting row, and only then does its start begin |
| `McpRuntime.StartIs` | crates/hom-ingress/src/capability_mesh.rs:1578-1622 | a start under way gives a session of its own that counts on from 3, or a failure still to be recorded |
| `McpRuntime.ConnectEndsAs` | crates/hom-ingress/src/capability_mesh.rs:1578-1622 | a connect ends with a connected row after a start, with a failed row after a failure, and in no other way |
| `McpRuntime.SwitchIs` | crates/hom-ingress/src/capability_mesh.rs:1868-1911 | switching a configured server changes its flag alone; only switching it off drops its entry, in a later step |
| `McpRuntime.DisabledRevivesIff` | crates/hom-ingress/src/capability_mesh.rs:1906-1911 | a disabled, dropped server gets a live session again without enabling exactly when a connect was past the check |
| `FileWriteSteps.FileTools.PreviewFileWrite` | crates/hom-ingress/src/capability_mesh.rs:3577-3682 | with no other call in between, what the steps of a preview do in a row: stores the record under the id its parts hash to in what it finds of the store, taking what it cannot read to be empty, or gives the error |
| `FileWriteSteps.FileTools.ApplyFileWrite` | crates/hom-ingress/src/capability_mesh.rs:3577-3790 | with no other call in between, what the steps of an apply do in a row: writes by mode, moves the preview to the certificates of the store as read, or gives the error; a failing store leaves the write in place |
| `FileWrites.PreviewFaultIs` | crates/hom-ingress/src/capability_mesh.rs:3621-3632 | what is wrong with a preview, in order |
| `FileWrites.PreviewIs` | crates/hom-ingress/src/capability_mesh.rs:3633-3666 | what a good preview stores, field by field |
| `FileWrites.IdIs` | crates/hom-ingress/src/capability_mesh.rs:3634-3643 | the id of a preview and what it is the hash of |
| `FileWrites.ApplyRefusedIs` | crates/hom-ingress/src/capability_mesh.rs:3685-3711 | why an apply is refused, and that nothing is written then |
| `FileWrites.ApplyIs` | crates/hom-ingress/src/capability_mesh.rs:3737-3761 | after an apply that reached the disk the file holds what the preview showed, behind what was there for an append; a create found no file; no other file is touched |
| `FileWrites.CertifiedIs` | crates/hom-ingress/src/capability_mesh.rs:3762-3780 | what an apply certifies and what it leaves in the store |
| `FileWriteSteps.WriteStepIs` | crates/hom-ingress/src/capability_mesh.rs:3737-3761 | the same of the write step alone, whatever overlaps |
| `FileWriteSteps.LookStepIs` | crates/hom-ingress/src/capability_mesh.rs:3685-3711 | an apply gets to its write only if it was approved and found its preview |
| `FileWriteSteps.EveryInterleaving` | crates/hom-ingress/src/capability_mesh.rs:3577-3790 | whatever calls overlap and whatever fails, the disk is the initial one with the logged, previewed writes folded; the successful ones are those with a certificate; applies outnumber previews at most by unsuccessful ones and twice the renames of a stale store |
| `FileWriteSteps.LogCurrentIff` | crates/hom-ingress/src/capability_mesh.rs:3577-3790 | in every interleaving the store holds all certificates handed out, in order, at every moment exactly when each rename puts into place the log then stored with the call's own certificate |
| `FileWriteSteps.InStepIff` | crates/hom-ingress/src/capability_mesh.rs:3577-3790 | for a call that renames its own temporary file this means that the log is still the one it read |
| `FileWriteSteps.AloneIsAccounted` | crates/hom-ingress/src/capability_mesh.rs:3577-3790 | calls that do not overlap, finished or not, never bring more applies than previews and unsuccessful applies |
| `FileWriteSteps.AloneInStepIff` | crates/hom-ingress/src/capability_mesh.rs:3577-3790 | a call that does not overlap is out of step exactly when it found none of the log there was |
| `FileWriteSteps.OverlappingApplies` | crates/hom-ingress/src/capability_mesh.rs:3684-3790 | n applies of one stored replace or append that read the store before any writes it all succeed and all write the file; the log grows by one certificate |
| `FileWriteSteps.SameLogOtherDisk` | crates/hom-ingress/src/capability_mesh.rs:3684-3790 | one apply of an append and two overlapping ones leave the same store and different files |
| `FileWriteSteps.OverlapAppliesTwiceIff` | crates/hom-ingress/src/capability_mesh.rs:3684-3790 | with files that can always be read and written, some interleaving of applies takes a stored preview to the disk twice exactly when it replaces or appends |
| `FileWriteSteps.InterleavedAsPreviewed` | crates/hom-ingress/src/capability_mesh.rs:3642-3724 | without hash collisions every apply of every interleaving writes what each preview of its id showed |
| `FileWriteSteps.UninterruptedCall` | crates/hom-ingress/src/capability_mesh.rs:3620-3790 | the steps of a call in a row do what the call does as one event |
| `FileWriteSteps.SerialRuns` | crates/hom-ingress/src/capability_mesh.rs:3620-3790 | so runs of calls that do not overlap are runs of whole calls |
| `FileWriteSteps.SerialCertified` | crates/hom-ingress/src/capability_mesh.rs:3577-3790 | and step by step they never apply more than was previewed, with a complete log exactly when no call erased it |
| `FileWrites.CountsAre` | crates/hom-ingress/src/capability_mesh.rs:3577-3790 | how previews, applies and lost certificates of an id are counted in what follows |
| `FileWrites.EveryRun` | crates/hom-ingress/src/capability_mesh.rs:3577-3790 | for calls that do not overlap: whatever cannot be read or written, the disk is the initial one with the logged, previewed writes folded, and applies outnumber previews at most by lost certificates |
| `FileWrites.CertifiedRun` | crates/hom-ingress/src/capability_mesh.rs:3577-3790 | for calls that do not overlap: when the store can always be written, applies of an id never outnumber its previews, and the folded writes are those of the certificates in order exactly when no call erased the log |
| `FileWrites.CertificatesOnlyGrow` | crates/hom-ingress/src/capability_mesh.rs:3577-3780 | for calls that do not overlap: as long as no call writes back a store whose certificates it could not read, the log only grows |
| `FileWrites.LogSurvivesIff` | crates/hom-ingress/src/capability_mesh.rs:3577-3780 | for calls that do not overlap: one call keeps all certificates in place exactly when it saves no store, found the log, the log was empty, or it puts back the only certificate |
| `FileWrites.LogIsCompleteIff` | crates/hom-ingress/src/capability_mesh.rs:3577-3780 | for calls that do not overlap: over any run the store holds the certificates of all recorded writes, in order, exactly when no call erased the log |
| `FileWrites.UnreadStoreLosesAll` | crates/hom-ingress/src/capability_mesh.rs:3577-3665 | a preview that cannot read the store but can write it leaves no certificate and no other pending preview |
| `FileWrites.AppliedTwiceIff` | crates/hom-ingress/src/capability_mesh.rs:3706-3780 | for calls that do not overlap: applies alone can bring a stored preview to the disk twice exactly when it replaces or appends |
| `FileWrites.AppliedAnyNumberOfTimes` | crates/hom-ingress/src/capability_mesh.rs:3706-3780 | as long as the store takes no certificate such a preview is applied any number of times |
| `FileWrites.LostCertificateAppliesTwice` | crates/hom-ingress/src/capability_mesh.rs:3728-3780 | after a lost certificate the same replace or append is done again from one preview, and an append then stands in its file twice |
| `FileWrites.FingerprintDeterminesParts` | crates/hom-ingress/src/capability_mesh.rs:3633-3642 | the text behind a preview id determines path, content hash, mode and the size seen |
| `FileWrites.AppliedAsPreviewed` | crates/hom-ingress/src/capability_mesh.rs:3642-3724 | for calls that do not overlap: without hash collisions an apply writes what every preview of its id showed |
| `FileWrites.CertificatesDetermineDisk` | crates/hom-ingress/src/capability_mesh.rs:3764-3780 | for calls that do not overlap: without hash collisions and erased logs equal certificates over the same initial disk mean equal disks |

## Left out

- Floating-point numbers: JSON floats are the text they print as (so 0.0 and -0.0 count as different), scores and
  percentiles are real numbers, and rounding, NaN and infinities do not occur.
- Integer widths beyond the 64-bit time stamps and the lengths of frames: JSON integers, counters and sums are
  unbounded, and time differences neither overflow nor saturate.
- Hashes, signatures, base64 and key formats: parameters with stated hypotheses.
- The security policy rules, the dispatched methods, the product quantizer and the SQL behind the corpus: parameters.
- Parsing of frames and messages as JSON (a parameter), the frame size limit of the server, logging and response shapes.
- `WeightedQueue.estimate_wait_ms`, snapshots, and the choice of worker and priority for a method.
- The other vector benchmarks, `float_summary` and the regression comparison: they repeat what is modelled or only copy
  fields.
- Durations and the latency gate: whether the latency passed is an input of the profile.
- The library sort: `Sorting.Sort` stands for `sort`, `sort_by` and `sort_unstable`, as a stable insertion sort.
- Locks that are poisoned, file systems with symbolic links or aliases of a path, writes of a single file
  that other calls see half done (except that the store may be found unreadable at any time), other programs that put
  previews or certificates of their own into the preview store, a write whose target is the store itself, and non-UTF-8
  file names.
- Text of a file chunk: chunks are bytes here; the lossy decoding of each chunk as UTF-8 is not modelled.
- Configuration files other than the enabled flag and the transport of an MCP server; the fields of a row that only
  report (times, errors, protocol answer, process handle).
- HTTP routing, provider catalogue, credentials, browser and shell execution, ledger, import and export.
