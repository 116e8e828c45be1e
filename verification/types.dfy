/** Data model of the QDASH bitrate-adaptation rule: the `qs` record, the
    per-media-type "first buffer loaded" latch, the switch request it
    returns, and the collaborators it reads on each call. */
module QDashTypes {

  datatype Option<+T> = None | Some(value: T)

  /** `QDashStates`: STABLE while throughput and bitrate agree, TRANSITION
      while the rule is walking from the old bitrate to the new one. */
  datatype QDashState = Stable | Transition

  /** The rule's `qs` record. `QDASHRule` keeps one such record per rule
      instance, shared by every media type the rule is asked about. */
  datatype EngineState = EngineState(
    currentState: QDashState,
    oldThroughput: real,
    currentThroughput: real,
    throughputDelta: real,
    nfrag: real,        // remaining intermediate fragments of the runway
    tbuffer: real,      // buffer level when the transition was entered
    sfrag: real,        // fragment size at the intermediate bitrate
    newBitrate: real,
    oldBitrate: real)

  /** The value `qs` holds when the rule is created: STABLE, every number 0. */
  const InitialEngineState: EngineState :=
    EngineState(Stable, 0.0, 0.0, 0.0, 0.0, 0.0, 0.0, 0.0, 0.0)

  /** Noise threshold on the throughput delta; 0 in `QDASHRule`, so any
      non-zero delta counts as a change. */
  const Epsilon: real := 0.0

  /** The two `BufferController` states the rule compares against. */
  datatype BufferStateTag = BufferLoaded | BufferEmpty

  /** Media types ("video", "audio", ...) key the latch dictionary. */
  type MediaType = string

  /** `bufferStateDict`: an entry exists once the rule has looked at a media
      type; its value is the `firstBufferLoadedEvent` flag. */
  type LatchDict = map<MediaType, bool>

  /** True when the media type's first-buffer-loaded flag is set. */
  predicate Latched(dict: LatchDict, m: MediaType) {
    m in dict && dict[m]
  }

  /** True when no media type has its flag set. */
  ghost predicate NoneLatched(dict: LatchDict) {
    forall m :: !Latched(dict, m)
  }

  /** The quality field of a switch request: the NO_CHANGE sentinel or an
      index into the bitrate list. */
  datatype Quality = NoChange | Index(index: nat)

  /** `SwitchRequest`: a quality and an optional diagnostic reason. */
  datatype SwitchRequest = SwitchRequest(quality: Quality, reason: Option<string>)

  /** What a freshly created switch request holds: no change, no reason. */
  const DefaultRequest: SwitchRequest := SwitchRequest(NoChange, None)

  const BufferEmptyReason: string := "QDASH: Buffer is empty"

  /** The bitrate ladder of the media: the bitrate list in bits per second
      and the abr controller's bitrate-to-quality mapping, called with a
      bitrate and a latency. */
  datatype Ladder = Ladder(bitrates: seq<real>, qualityForBitrate: (real, real) -> nat)

  /** What the rule assumes of its collaborators: every bitrate is positive
      and every quality the mapping returns indexes the bitrate list. */
  ghost predicate ValidLadder(ladder: Ladder) {
    && (forall i :: 0 <= i < |ladder.bitrates| ==> ladder.bitrates[i] > 0.0)
    && (forall br, lat :: ladder.qualityForBitrate(br, lat) < |ladder.bitrates|)
  }

  /** The parts of the rules context the rule reads. A context that is
      absent, or lacks `getMediaType`, is `None` at the call site. */
  datatype RulesContext = RulesContext(
    mediaType: MediaType,
    fragmentDuration: Option<real>,
    ladder: Ladder)

  /** JavaScript truthiness of `representationInfo.fragmentDuration`: the
      two falsy values a duration can take here are `undefined` (`None`)
      and 0. NaN, also falsy, has no counterpart among the reals. */
  function FragmentDurationKnown(fd: Option<real>): (known: bool)
    ensures known <==> fd != None && fd != Some(0.0)
  {
    fd.Some? && fd.value != 0.0
  }

  /** The measurement collaborators, per media type: the buffer-state
      history of the metrics model, the current buffer level, and the
      average throughput and latency of the throughput history. */
  datatype Metrics = Metrics(
    bufferStateHistory: MediaType -> seq<BufferStateTag>,
    bufferLevel: MediaType -> real,
    averageThroughput: MediaType -> real,
    averageLatency: MediaType -> real)

  /** One reading of the measurements the state machine consumes. */
  datatype Sample = Sample(bufferLevel: real, throughput: real, latency: real)

  /** The readings one call takes for its media type, once each: the
      buffer level from the dash metrics, and the average throughput and
      latency from the throughput history. */
  function SampleFor(metrics: Metrics, m: MediaType): (s: Sample)
    ensures s.bufferLevel == metrics.bufferLevel(m)
    ensures s.throughput == metrics.averageThroughput(m)
    ensures s.latency == metrics.averageLatency(m)
  {
    Sample(metrics.bufferLevel(m), metrics.averageThroughput(m), metrics.averageLatency(m))
  }

  /** The last entry of a buffer-state history, if there is one. */
  function LastBufferState(history: seq<BufferStateTag>): (r: Option<BufferStateTag>)
    ensures r.None? <==> |history| == 0
    ensures r.Some? ==> r.value == history[|history| - 1]
  {
    if |history| > 0 then Some(history[|history| - 1]) else None
  }

  /** All state a rule instance keeps between calls. */
  datatype RuleState = RuleState(qs: EngineState, bufferStateDict: LatchDict)
}
