# QDASH bitrate-adaptation rule, modelled in Dafny

This project models the QDASH adaptive-bitrate rule of dash.js (`QDASHRule`).
On each call, `getMaxIndex` decides which quality index the player should
request next. It does not jump straight to the bitrate that the measured
throughput suggests. Instead it runs a two-state machine:

- **STABLE.** When the throughput moves, the rule first asks for the quality
  halfway between the old and the new throughput's qualities. It then enters
  TRANSITION with a runway of `nfrag` fragments.
- **TRANSITION.** Each call spends one fragment of the runway. When the
  runway is used up, the rule commits to the new bitrate's quality and
  returns to STABLE.

Before the machine runs, some gates must pass: a rules context, a last
buffer state, a per-media-type "first buffer loaded" latch, and a known
fragment duration. When the buffer is empty, the rule forces quality 0
instead.

The model is functional:

- `QDashTypes` (types.dfy) holds the `qs` record as the immutable
  `EngineState`, the latch dictionary as `map<MediaType, bool>`, the
  `SwitchRequest`, and the collaborators:
  - the buffer-state history, buffer level, average throughput and average
    latency, as functions of the media type in `Metrics`;
  - the bitrate list and `getQualityForBitrate`, in `Ladder`.
- `QDashMachine` (machine.dfy) is the state machine: one step on the
  non-empty-buffer path, and the invariant that step keeps.
- `QDashCountdown` (countdown.dfy) covers runs of the machine: the
  TRANSITION countdown and the STABLE plateau.
- `QDashRule` (rule.dfy) is `getMaxIndex` with its gates, the latch, the
  reset and seek handlers, and runs of consecutive calls.

Throughput, buffer level, `nfrag`, `sfrag` and the bitrates are exact
`real`s. The collaborators are treated as uninterpreted, and three
assumptions are made about them:

- `ValidLadder`: every bitrate is positive, and every quality
  `getQualityForBitrate` returns indexes the bitrate list.
- Quality indices are natural numbers (`nat`): `getQualityForBitrate` never
  returns a negative index.
- The bitrate list holds numbers, so `bitrateList[idx] / 1000` is a
  bitrate in kbit/s.

## Behaviour worth noting

- `qs` is one record per rule instance, shared by every media type. Only
  the latch is kept per media type. A call for video therefore sees the
  throughput last sampled for audio (`SharedEngineState`, illustrated by
  `InterleavedMediaTypesTransition`). Code that kept one record per track
  would behave otherwise.
- `reset` and the seek handler clear only the latch dictionary. They never
  reinitialise `qs`.
- The gate conditions are evaluated left to right, with short-circuiting.
  The latch check runs before the fragment-duration check, so a call can set
  the latch even when the fragment duration is missing
  (`LatchSetWithoutFragmentDuration`).
- `qs` starts with a current throughput of 0, and nothing resets it. The
  first gated call with a non-empty buffer and a non-zero throughput
  therefore enters TRANSITION at once, with an old bitrate of 0
  (`FirstSampleEntersTransition`).
- A reason string is set only on the empty-buffer path. The transition
  paths return a request with no reason.
- `nfrag` is a real number, not an integer. It is compared with 0, so a
  runway of `n > 0` lasts for the ceiling of `n` calls.
- With `epsilon` at 0, any non-zero throughput delta moves a STABLE rule
  into TRANSITION (`ThroughputChanged`).

## Model

| member | source | states |
|---|---|---|
| QDashTypes.LastBufferState | src/streaming/rules/abr/QDASHRule.js:63 | there is no last buffer state exactly when the history is empty; otherwise it is the final entry |
| QDashTypes.FragmentDurationKnown | src/streaming/rules/abr/QDASHRule.js:68 | the JavaScript truthiness test `!fragmentDuration`: a duration is known exactly when it is neither `undefined` nor 0 (NaN is not representable) |
| QDashTypes.SampleFor | src/streaming/rules/abr/QDASHRule.js:82-84 | one call reads the buffer level, average throughput and average latency of its own media type, once each |
| QDashMachine.ThroughputChanged | src/streaming/rules/abr/QDASHRule.js:99 | the test `delta < -epsilon` or `delta > epsilon`, with `epsilon = 0`, holds exactly when the delta is non-zero |
| QDashMachine.ShiftThroughput | src/streaming/rules/abr/QDASHRule.js:86-89 | the old throughput becomes the previous current one, the current one becomes the sample, the delta is their difference, and no other field of `qs` moves |
| QDashMachine.IntermediateQualityIdx | src/streaming/rules/abr/QDASHRule.js:91-95 | the intermediate index is the floor of the mean of the two qualities (`2*idx <= q0+q1 < 2*idx+2`), lies between them, and indexes the bitrate list |
| QDashMachine.FragmentSize | src/streaming/rules/abr/QDASHRule.js:104-105 | `sfrag` is the intermediate bitrate in kbit/s times the fragment duration, and is never 0 for a positive bitrate and a known duration |
| QDashMachine.MachineStep | src/streaming/rules/abr/QDASHRule.js:86-121 | one step updates the throughput window in both states. STABLE with zero delta: no change and nothing else moves. STABLE with a delta: the midpoint quality, TRANSITION, old/new bitrate set from the window, `tbuffer` set to the buffer level, and `nfrag*sfrag = tbuffer*newBitrate`. TRANSITION with `nfrag > 0`: `nfrag` drops by exactly 1, no change, all else kept. TRANSITION with `nfrag <= 0`: the new bitrate's quality, STABLE, `nfrag` kept. Every quality is a valid index |
| QDashMachine.MachineStepKeepsInvariant | src/streaming/rules/abr/QDASHRule.js:97-121 | every machine step keeps the delta equal to current minus old throughput. In TRANSITION it keeps `sfrag` non-zero and `nfrag` no greater than the runway computed on entry |
| QDashCountdown.Ticks | src/streaming/rules/abr/QDASHRule.js:113-119 | the number of countdown calls a runway `n` allows is the ceiling of `n` for positive `n` (`k-1 < n <= k`), and 0 otherwise |
| QDashCountdown.TicksDecrement | src/streaming/rules/abr/QDASHRule.js:118 | spending one fragment of a positive runway leaves exactly one countdown call fewer |
| QDashCountdown.RunMachine | src/streaming/rules/abr/QDASHRule.js:86-121 | a run of machine steps yields one quality per sample and ends holding the last sample's throughput |
| QDashCountdown.CountdownHolds | src/streaming/rules/abr/QDASHRule.js:112-119 | within the runway, every call asks for no change and the state stays TRANSITION. After `k` calls `nfrag` is the entry value minus `k`. `tbuffer`, `sfrag`, `newBitrate` and `oldBitrate` are unchanged |
| QDashCountdown.CountdownCommits | src/streaming/rules/abr/QDASHRule.js:112-120 | from TRANSITION with runway `n`, exactly `Ticks(n)` calls ask for no change. The next call returns the quality of `newBitrate` at that call's latency and goes back to STABLE |
| QDashCountdown.StablePlateau | src/streaming/rules/abr/QDASHRule.js:97-111 | while the throughput does not move, a STABLE machine stays STABLE, asks for no change on every call, and only its window fields are rewritten |
| QDashRule.WasFirstBufferLoadedEventTriggered | src/streaming/rules/abr/QDASHRule.js:127-138 | the check passes exactly when the media type's flag was already set or the current state is BUFFER_LOADED. The flag afterwards equals the result. An entry for the media type always exists afterwards, and every other entry is kept |
| QDashRule.ResetInitialSettings | src/streaming/rules/abr/QDASHRule.js:140-142 | no media type is latched afterwards and `qs` is unchanged |
| QDashRule.OnPlaybackSeeking | src/streaming/rules/abr/QDASHRule.js:144-146 | a seek clears every latch and leaves `qs` unchanged |
| QDashRule.Reset | src/streaming/rules/abr/QDASHRule.js:148-151 | a reset clears every latch and leaves `qs` unchanged |
| QDashRule.Setup | src/streaming/rules/abr/QDASHRule.js:26-44 | a new rule holds the initial `qs`, which satisfies the engine invariant, and has no latch set |
| QDashRule.Gated | src/streaming/rules/abr/QDASHRule.js:55-70 | the gates, stated on the state before the call (context present, a last buffer state, latch already set or the last state BUFFER_LOADED, fragment duration known), agree with the code's short-circuit chain through `wasFirstBufferLoadedEventTriggered` |
| QDashRule.BufferIsEmpty | src/streaming/rules/abr/QDASHRule.js:63-72 | the empty-buffer test holds exactly when there is a context and the final entry of its media type's buffer-state history exists and is BUFFER_EMPTY |
| QDashRule.GetMaxIndex | src/streaming/rules/abr/QDASHRule.js:52-125 | if any gate fails (no context, no last buffer state, latch neither set nor set now, no fragment duration), the result is the default no-change request and `qs` is unchanged. Empty buffer: quality 0 with its reason, `qs` unchanged. Otherwise the result is one machine step on the sampled measurements. A reason appears exactly on the empty-buffer path. Every quality indexes the bitrate list. Once a call finds a last buffer state, its media type is latched afterwards exactly when it was latched before or that state is BUFFER_LOADED. Latches are never cleared by a call, are set only for the called media type, and other media types' entries are untouched |
| QDashRule.LadderNonEmpty | src/streaming/rules/abr/QDASHRule.js:72-75 | under the collaborator assumptions, quality 0 is a valid index |
| QDashRule.GetMaxIndexKeepsInvariant | src/streaming/rules/abr/QDASHRule.js:52-125 | every call keeps the engine invariant of `qs` |
| QDashRule.Run | src/streaming/rules/abr/QDASHRule.js:52-125 | a series of calls yields one request per call |
| QDashRule.LatchStaysSet | src/streaming/rules/abr/QDASHRule.js:127-138 | once a media type is latched, it stays latched through any series of calls without a reset or seek |
| QDashRule.NoDecisionBeforeFirstLoad | src/streaming/rules/abr/QDASHRule.js:63-70 | until some call reports BUFFER_LOADED as its last buffer state, a rule with no latch set asks for no change on every call, keeps `qs`, and latches nothing |
| QDashRule.RunKeepsInvariant | src/streaming/rules/abr/QDASHRule.js:86-121 | a series of calls keeps the engine invariant of `qs` |
| QDashRule.SeekReengagesGating | src/streaming/rules/abr/QDASHRule.js:140-146 | after a seek, a call whose last buffer state is not BUFFER_LOADED is gated again (no change, `qs` kept), whatever was latched before |
| QDashRule.SharedEngineState | src/streaming/rules/abr/QDASHRule.js:97-109 | in STABLE, a gated non-empty call whose throughput differs from the last sample held in `qs` enters TRANSITION and requests a quality, even if that sample was taken for another media type |
| QDashRule.FirstSampleEntersTransition | src/streaming/rules/abr/QDASHRule.js:26-36 | from the initial `qs`, the first gated non-empty call with a non-zero throughput enters TRANSITION. Its old bitrate is 0, its new bitrate is the sample, and it requests the midpoint between the qualities of 0 and the sample |
| QDashRule.LatchSetWithoutFragmentDuration | src/streaming/rules/abr/QDASHRule.js:68 | a call whose last buffer state is BUFFER_LOADED but whose fragment duration is missing returns no change and keeps `qs`, yet latches its media type |
| QDashRule.ReadsOnlyCalledMediaType | src/streaming/rules/abr/QDASHRule.js:61-84 | a call's decision depends only on the called media type's buffer-state history and readings: collaborators that agree on those give the same decision |
| QDashRule.RunFollowsMachine | src/streaming/rules/abr/QDASHRule.js:52-125 | once a media type is latched, a series of calls with one context and a loaded buffer ends in the same `qs` as the bare machine run on the calls' readings. Each request is the machine's quality with no reason, and the latch stays set |
| QDashRule.RuleCountdownCommits | src/streaming/rules/abr/QDASHRule.js:112-120 | for calls of the rule from TRANSITION with runway `n`, the first `Ticks(n)` calls return the default no-change request. The next returns the quality of `newBitrate` at its latency, the rule is STABLE again, and the fields fixed on entry are kept |
| QDashRule.RuleStablePlateau | src/streaming/rules/abr/QDASHRule.js:97-111 | for calls of the rule in STABLE that report the throughput `qs` already holds, every request is the default one and only the window fields of `qs` are rewritten |
| QDashRule.InterleavedMediaTypesTransition | src/streaming/rules/abr/QDASHRule.js:26-36 | an illustration of `SharedEngineState` on concrete values: audio is steady at 128 and video at 4000. A call for audio leaves the shared record STABLE; the next call, for video, puts it into TRANSITION |

## Left out

- Event-bus subscription and unsubscription, debug logging, the factory
  wiring and the `SwitchRequest` factory. This is framework plumbing. Seek
  and reset are direct functions that clear the latch map, and a switch
  request carries only its quality and reason.
- `checkConfig` throwing when `metricsModel` or `dashMetrics` is missing.
  A well-formed configuration is assumed instead of modelling the exception.
- The internals of the metrics model, dash metrics, the abr controller and
  the throughput history. Their code is not part of this model, so they are
  function values. `ValidLadder` requires positive bitrates and in-range
  qualities, and qualities are `nat`, never negative. The bitrate list is
  taken to hold numbers. If it held objects, `bitrateList[idx] / 1000`
  would be NaN, and a TRANSITION entered that way would never commit.
- IEEE-754 behaviour: NaN, infinities and rounding. Exact reals replace
  doubles. A NaN fragment duration, which is falsy in JavaScript, has no
  counterpart. A zero `sfrag` cannot arise under `ValidLadder` and a known
  fragment duration, so the division in `nfrag` is always defined.
- A rules context that is `null` and one that lacks `getMediaType` are
  both modelled as `None`. They behave the same.
- Buffer states other than BUFFER_LOADED and BUFFER_EMPTY. The rule
  compares only against these two.
- Ordering of the collaborator reads inside one call. Every read has no
  effect, so each call takes one snapshot of the measurements.
