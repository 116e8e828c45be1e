/** The QDASH rule as its callers see it: `getMaxIndex` with its gates and
    empty-buffer override, the first-buffer-loaded latch, and the reset and
    seek handlers. */
module QDashRule {
  import opened QDashTypes
  import opened QDashMachine
  import opened QDashCountdown

  /** The latch dictionary after a check, and whether the check passed. */
  datatype LatchCheck = LatchCheck(dict: LatchDict, triggered: bool)

  /** `wasFirstBufferLoadedEventTriggered`: passes once the media type has
      seen BUFFER_LOADED, latching the flag the first time it does. It
      always leaves an entry for the media type behind. */
  function WasFirstBufferLoadedEventTriggered(dict: LatchDict, m: MediaType, current: BufferStateTag): (r: LatchCheck)
    ensures r.triggered <==> Latched(dict, m) || current == BufferLoaded
    ensures Latched(r.dict, m) == r.triggered
    ensures r.dict.Keys == dict.Keys + {m}
    ensures forall k :: k in dict && k != m ==> r.dict[k] == dict[k]
  {
    var entry := if m in dict then dict[m] else false;
    if entry then
      LatchCheck(dict[m := entry], true)
    else if current == BufferLoaded then
      LatchCheck(dict[m := true], true)
    else
      LatchCheck(dict[m := entry], false)
  }

  /** `resetInitialSettings`: forgets every latch; `qs` is kept. */
  function ResetInitialSettings(rule: RuleState): (r: RuleState)
    ensures r.qs == rule.qs
    ensures NoneLatched(r.bufferStateDict)
  {
    rule.(bufferStateDict := map[])
  }

  /** The PLAYBACK_SEEKING handler. */
  function OnPlaybackSeeking(rule: RuleState): (r: RuleState)
    ensures r.qs == rule.qs
    ensures NoneLatched(r.bufferStateDict)
  {
    ResetInitialSettings(rule)
  }

  /** `reset` (the event-bus unsubscription is not modelled). */
  function Reset(rule: RuleState): (r: RuleState)
    ensures r.qs == rule.qs
    ensures NoneLatched(r.bufferStateDict)
  {
    ResetInitialSettings(rule)
  }

  /** The state of a newly created rule (`setup`). */
  function Setup(): (r: RuleState)
    ensures r.qs == InitialEngineState
    ensures NoneLatched(r.bufferStateDict)
    ensures EngineInvariant(r.qs)
  {
    ResetInitialSettings(RuleState(InitialEngineState, map[]))
  }

  /** The gates of `getMaxIndex`, stated on the state before the call: a
      context, a last buffer state, the latch (already set or set by this
      very call) and a known fragment duration. It agrees with the
      short-circuit chain of the code, which runs the latch check before
      the fragment-duration test. */
  ghost function Gated(rule: RuleState, ctx: Option<RulesContext>, metrics: Metrics): (gated: bool)
    ensures gated <==>
              && ctx.Some?
              && var last := LastBufferState(metrics.bufferStateHistory(ctx.value.mediaType));
                 && last.Some?
                 && WasFirstBufferLoadedEventTriggered(rule.bufferStateDict, ctx.value.mediaType, last.value).triggered
                 && FragmentDurationKnown(ctx.value.fragmentDuration)
  {
    && ctx.Some?
    && var last := LastBufferState(metrics.bufferStateHistory(ctx.value.mediaType));
       && last.Some?
       && (Latched(rule.bufferStateDict, ctx.value.mediaType) || last.value == BufferLoaded)
       && FragmentDurationKnown(ctx.value.fragmentDuration)
  }

  /** The last buffer state the context's media type reports is EMPTY:
      the final entry of its history exists and is BUFFER_EMPTY. */
  ghost function BufferIsEmpty(ctx: Option<RulesContext>, metrics: Metrics): (empty: bool)
    ensures empty <==>
              && ctx.Some?
              && var history := metrics.bufferStateHistory(ctx.value.mediaType);
                 |history| > 0 && history[|history| - 1] == BufferEmpty
  {
    && ctx.Some?
    && LastBufferState(metrics.bufferStateHistory(ctx.value.mediaType)) == Some(BufferEmpty)
  }

  /** The rule state after a call, and the request the call returns. */
  datatype Decision = Decision(rule: RuleState, request: SwitchRequest)

  /** `getMaxIndex`. */
  function GetMaxIndex(rule: RuleState, ctx: Option<RulesContext>, metrics: Metrics): (d: Decision)
    requires ctx.Some? ==> ValidLadder(ctx.value.ladder)
    // gating: no change, and `qs` untouched
    ensures !Gated(rule, ctx, metrics) ==> d.request == DefaultRequest && d.rule.qs == rule.qs
    // empty buffer: quality 0 with its reason, `qs` untouched
    ensures Gated(rule, ctx, metrics) && BufferIsEmpty(ctx, metrics) ==>
              && d.request == SwitchRequest(Index(0), Some(BufferEmptyReason))
              && d.rule.qs == rule.qs
    // otherwise one step of the machine on the sampled measurements
    ensures Gated(rule, ctx, metrics) && !BufferIsEmpty(ctx, metrics) ==>
              var out := MachineStep(rule.qs, SampleFor(metrics, ctx.value.mediaType),
                                     ctx.value.ladder, ctx.value.fragmentDuration.value);
              d.rule.qs == out.qs && d.request == SwitchRequest(out.quality, None)
    // a reason is given exactly on the empty-buffer path
    ensures d.request.reason.Some? <==> Gated(rule, ctx, metrics) && BufferIsEmpty(ctx, metrics)
    // every requested quality indexes the bitrate list
    ensures d.request.quality.Index? ==> ctx.Some? && d.request.quality.index < |ctx.value.ladder.bitrates|
    // the latch: monotone, set only by BUFFER_LOADED, and only for this media type
    ensures forall k :: Latched(rule.bufferStateDict, k) ==> Latched(d.rule.bufferStateDict, k)
    ensures forall k :: Latched(d.rule.bufferStateDict, k) && !Latched(rule.bufferStateDict, k) ==>
              && ctx.Some? && k == ctx.value.mediaType
              && LastBufferState(metrics.bufferStateHistory(k)) == Some(BufferLoaded)
    ensures ctx.Some? && LastBufferState(metrics.bufferStateHistory(ctx.value.mediaType)).Some? ==>
              (Latched(d.rule.bufferStateDict, ctx.value.mediaType) <==>
                 Latched(rule.bufferStateDict, ctx.value.mediaType)
                 || LastBufferState(metrics.bufferStateHistory(ctx.value.mediaType)) == Some(BufferLoaded))
    ensures forall k :: (ctx.None? || k != ctx.value.mediaType) ==>
              (k in rule.bufferStateDict <==> k in d.rule.bufferStateDict)
              && (k in rule.bufferStateDict ==> rule.bufferStateDict[k] == d.rule.bufferStateDict[k])
  {
    if ctx.None? then
      Decision(rule, DefaultRequest)
    else
      var c := ctx.value;
      var last := LastBufferState(metrics.bufferStateHistory(c.mediaType));
      if last.None? then
        Decision(rule, DefaultRequest)
      else
        var check := WasFirstBufferLoadedEventTriggered(rule.bufferStateDict, c.mediaType, last.value);
        if !check.triggered || !FragmentDurationKnown(c.fragmentDuration) then
          Decision(rule.(bufferStateDict := check.dict), DefaultRequest)
        else if last.value == BufferEmpty then
          LadderNonEmpty(c.ladder);
          Decision(rule.(bufferStateDict := check.dict), SwitchRequest(Index(0), Some(BufferEmptyReason)))
        else
          var out := MachineStep(rule.qs, SampleFor(metrics, c.mediaType), c.ladder, c.fragmentDuration.value);
          Decision(RuleState(out.qs, check.dict), SwitchRequest(out.quality, None))
  }

  /** A valid ladder has a quality 0 to fall back to. */
  lemma LadderNonEmpty(ladder: Ladder)
    requires ValidLadder(ladder)
    ensures |ladder.bitrates| > 0
  {
    assert ladder.qualityForBitrate(0.0, 0.0) < |ladder.bitrates|;
  }

  /** Every call keeps the invariant of `qs`. */
  lemma GetMaxIndexKeepsInvariant(rule: RuleState, ctx: Option<RulesContext>, metrics: Metrics)
    requires ctx.Some? ==> ValidLadder(ctx.value.ladder)
    requires EngineInvariant(rule.qs)
    ensures EngineInvariant(GetMaxIndex(rule, ctx, metrics).rule.qs)
  {
  }

  /** One call of `getMaxIndex` by the host, with the context it passes
      and the measurements its collaborators report at that moment. */
  datatype Call = Call(ctx: Option<RulesContext>, metrics: Metrics)

  ghost predicate ValidCall(call: Call) {
    call.ctx.Some? ==> ValidLadder(call.ctx.value.ladder)
  }

  /** The rule state and requests after a series of calls. */
  datatype Trace = Trace(rule: RuleState, requests: seq<SwitchRequest>)

  /** Consecutive calls of `getMaxIndex` with no reset or seek between. */
  function Run(rule: RuleState, calls: seq<Call>): (t: Trace)
    requires forall i :: 0 <= i < |calls| ==> ValidCall(calls[i])
    ensures |t.requests| == |calls|
    decreases |calls|
  {
    if |calls| == 0 then Trace(rule, [])
    else
      assert ValidCall(calls[0]);
      var d := GetMaxIndex(rule, calls[0].ctx, calls[0].metrics);
      var rest := Run(d.rule, calls[1..]);
      Trace(rest.rule, [d.request] + rest.requests)
  }

  /** Once a media type's latch is set it stays set until a reset or seek. */
  lemma {:induction false} LatchStaysSet(rule: RuleState, calls: seq<Call>, m: MediaType)
    requires forall i :: 0 <= i < |calls| ==> ValidCall(calls[i])
    requires Latched(rule.bufferStateDict, m)
    ensures Latched(Run(rule, calls).rule.bufferStateDict, m)
    decreases |calls|
  {
    if |calls| > 0 {
      var d := GetMaxIndex(rule, calls[0].ctx, calls[0].metrics);
      LatchStaysSet(d.rule, calls[1..], m);
    }
  }

  /** The last buffer state a call reports is BUFFER_LOADED. */
  ghost predicate SeesBufferLoaded(call: Call) {
    && call.ctx.Some?
    && LastBufferState(call.metrics.bufferStateHistory(call.ctx.value.mediaType)) == Some(BufferLoaded)
  }

  /** Until some call reports BUFFER_LOADED, a rule with no latch set asks
      for no change, leaves `qs` alone and latches nothing. */
  lemma {:induction false} NoDecisionBeforeFirstLoad(rule: RuleState, calls: seq<Call>)
    requires forall i :: 0 <= i < |calls| ==> ValidCall(calls[i])
    requires NoneLatched(rule.bufferStateDict)
    requires forall i :: 0 <= i < |calls| ==> !SeesBufferLoaded(calls[i])
    ensures var t := Run(rule, calls);
            && t.rule.qs == rule.qs
            && NoneLatched(t.rule.bufferStateDict)
            && forall i :: 0 <= i < |calls| ==> t.requests[i] == DefaultRequest
    decreases |calls|
  {
    if |calls| > 0 {
      var d := GetMaxIndex(rule, calls[0].ctx, calls[0].metrics);
      assert !SeesBufferLoaded(calls[0]);
      assert NoneLatched(d.rule.bufferStateDict);
      NoDecisionBeforeFirstLoad(d.rule, calls[1..]);
      var t := Run(rule, calls);
      var rest := Run(d.rule, calls[1..]);
      assert t.requests == [DefaultRequest] + rest.requests;
    }
  }

  /** A series of calls keeps the invariant of `qs`. */
  lemma {:induction false} RunKeepsInvariant(rule: RuleState, calls: seq<Call>)
    requires forall i :: 0 <= i < |calls| ==> ValidCall(calls[i])
    requires EngineInvariant(rule.qs)
    ensures EngineInvariant(Run(rule, calls).rule.qs)
    decreases |calls|
  {
    if |calls| > 0 {
      var d := GetMaxIndex(rule, calls[0].ctx, calls[0].metrics);
      GetMaxIndexKeepsInvariant(rule, calls[0].ctx, calls[0].metrics);
      RunKeepsInvariant(d.rule, calls[1..]);
    }
  }

  /** After a reset or seek, a call whose last buffer state is not
      BUFFER_LOADED is gated again, whatever was latched before. */
  lemma SeekReengagesGating(rule: RuleState, ctx: RulesContext, metrics: Metrics)
    requires ValidLadder(ctx.ladder)
    requires LastBufferState(metrics.bufferStateHistory(ctx.mediaType)) != Some(BufferLoaded)
    ensures var d := GetMaxIndex(OnPlaybackSeeking(rule), Some(ctx), metrics);
            d.request == DefaultRequest && d.rule.qs == rule.qs
  {
    var sought := OnPlaybackSeeking(rule);
    assert !Latched(sought.bufferStateDict, ctx.mediaType);
  }

  /** `qs` is one record for all media types: a gated call for one media
      type that reports a throughput other than the last one sampled, even
      if that was sampled for another media type, leaves STABLE. */
  lemma SharedEngineState(rule: RuleState, ctx: RulesContext, metrics: Metrics)
    requires ValidLadder(ctx.ladder)
    requires Gated(rule, Some(ctx), metrics) && !BufferIsEmpty(Some(ctx), metrics)
    requires rule.qs.currentState == Stable
    requires metrics.averageThroughput(ctx.mediaType) != rule.qs.currentThroughput
    ensures var d := GetMaxIndex(rule, Some(ctx), metrics);
            && d.rule.qs.currentState == Transition
            && d.rule.qs.oldBitrate == rule.qs.currentThroughput
            && d.request.quality.Index?
  {
  }

  /** An illustration of `SharedEngineState` on concrete values: audio and
      video each report a steady throughput of their own, yet a call for
      video right after one for audio switches the machine into TRANSITION. */
  lemma InterleavedMediaTypesTransition(ladder: Ladder, metrics: Metrics)
    requires ValidLadder(ladder)
    requires metrics.bufferStateHistory("audio") == [BufferLoaded]
    requires metrics.bufferStateHistory("video") == [BufferLoaded]
    requires metrics.averageThroughput("audio") == 128.0
    requires metrics.averageThroughput("video") == 4000.0
    ensures var start := RuleState(InitialEngineState.(currentThroughput := 128.0), map[]);
            var afterAudio := GetMaxIndex(start, Some(RulesContext("audio", Some(2.0), ladder)), metrics);
            var afterVideo := GetMaxIndex(afterAudio.rule, Some(RulesContext("video", Some(2.0), ladder)), metrics);
            && afterAudio.rule.qs.currentState == Stable
            && afterAudio.request == DefaultRequest
            && afterVideo.rule.qs.currentState == Transition
  {
    var audio := RulesContext("audio", Some(2.0), ladder);
    var video := RulesContext("video", Some(2.0), ladder);
    var start := RuleState(InitialEngineState.(currentThroughput := 128.0), map[]);
    assert Gated(start, Some(audio), metrics) && !BufferIsEmpty(Some(audio), metrics);
    var afterAudio := GetMaxIndex(start, Some(audio), metrics);
    assert afterAudio.rule.qs.currentThroughput == 128.0;
    assert Gated(afterAudio.rule, Some(video), metrics) && !BufferIsEmpty(Some(video), metrics);
    SharedEngineState(afterAudio.rule, video, metrics);
  }

  /** `qs` starts with a current throughput of 0, and no reset or seek
      changes that, so the first gated call with a non-empty buffer and a
      non-zero throughput already leaves STABLE, with 0 as the old bitrate. */
  lemma FirstSampleEntersTransition(rule: RuleState, ctx: RulesContext, metrics: Metrics)
    requires rule.qs == InitialEngineState
    requires ValidLadder(ctx.ladder)
    requires Gated(rule, Some(ctx), metrics) && !BufferIsEmpty(Some(ctx), metrics)
    requires metrics.averageThroughput(ctx.mediaType) != 0.0
    ensures var d := GetMaxIndex(rule, Some(ctx), metrics);
            var s := SampleFor(metrics, ctx.mediaType);
            && d.rule.qs.currentState == Transition
            && d.rule.qs.oldBitrate == 0.0
            && d.rule.qs.newBitrate == s.throughput
            && d.request.quality == Index(IntermediateQualityIdx(ctx.ladder, 0.0, s.throughput, s.latency))
  {
    var s := SampleFor(metrics, ctx.mediaType);
    assert ThroughputChanged(s.throughput - rule.qs.currentThroughput);
  }

  /** The latch is checked before the fragment duration, so a call that
      reports BUFFER_LOADED latches its media type even when it is gated
      for want of a fragment duration. */
  lemma LatchSetWithoutFragmentDuration(rule: RuleState, ctx: RulesContext, metrics: Metrics)
    requires ValidLadder(ctx.ladder)
    requires LastBufferState(metrics.bufferStateHistory(ctx.mediaType)) == Some(BufferLoaded)
    requires !FragmentDurationKnown(ctx.fragmentDuration)
    ensures var d := GetMaxIndex(rule, Some(ctx), metrics);
            && d.request == DefaultRequest
            && d.rule.qs == rule.qs
            && Latched(d.rule.bufferStateDict, ctx.mediaType)
  {
  }

  /** A call reads only the measurements of the media type it is asked
      about: two sets of collaborators that agree on that media type's
      buffer-state history and readings give the same decision. */
  lemma ReadsOnlyCalledMediaType(rule: RuleState, ctx: RulesContext, m1: Metrics, m2: Metrics)
    requires ValidLadder(ctx.ladder)
    requires m1.bufferStateHistory(ctx.mediaType) == m2.bufferStateHistory(ctx.mediaType)
    requires SampleFor(m1, ctx.mediaType) == SampleFor(m2, ctx.mediaType)
    ensures GetMaxIndex(rule, Some(ctx), m1) == GetMaxIndex(rule, Some(ctx), m2)
  {
  }

  /** The measurements a series of calls reads for media type `m`. */
  function CallSamples(calls: seq<Call>, m: MediaType): (samples: seq<Sample>)
    ensures |samples| == |calls|
    ensures forall i :: 0 <= i < |calls| ==> samples[i] == SampleFor(calls[i].metrics, m)
  {
    seq(|calls|, i requires 0 <= i < |calls| => SampleFor(calls[i].metrics, m))
  }

  /** Every call passes the same context and reports BUFFER_LOADED. */
  ghost predicate SteadyCalls(calls: seq<Call>, c: RulesContext) {
    forall i :: 0 <= i < |calls| ==> calls[i].ctx == Some(c) && SeesBufferLoaded(calls[i])
  }

  /** One steady call is one machine step, and keeps the latch set. */
  lemma SteadyCallStep(rule: RuleState, c: RulesContext, call: Call)
    requires ValidLadder(c.ladder) && FragmentDurationKnown(c.fragmentDuration)
    requires Latched(rule.bufferStateDict, c.mediaType)
    requires call.ctx == Some(c) && SeesBufferLoaded(call)
    ensures var d := GetMaxIndex(rule, call.ctx, call.metrics);
            var out := MachineStep(rule.qs, SampleFor(call.metrics, c.mediaType), c.ladder, c.fragmentDuration.value);
            && d.rule.qs == out.qs
            && d.request == SwitchRequest(out.quality, None)
            && Latched(d.rule.bufferStateDict, c.mediaType)
  {
    assert Gated(rule, call.ctx, call.metrics) && !BufferIsEmpty(call.ctx, call.metrics);
  }

  lemma SteadyCallsTail(calls: seq<Call>, c: RulesContext)
    requires |calls| > 0 && SteadyCalls(calls, c)
    ensures SteadyCalls(calls[1..], c)
    ensures calls[0].ctx == Some(c) && SeesBufferLoaded(calls[0])
  {
    forall i | 0 <= i < |calls| - 1 ensures calls[1..][i].ctx == Some(c) && SeesBufferLoaded(calls[1..][i]) {
      assert calls[1..][i] == calls[i + 1];
    }
  }

  lemma SteadyCallsValid(calls: seq<Call>, c: RulesContext)
    requires ValidLadder(c.ladder) && SteadyCalls(calls, c)
    ensures forall i :: 0 <= i < |calls| ==> ValidCall(calls[i])
  {
    forall i | 0 <= i < |calls| ensures ValidCall(calls[i]) {
      assert calls[i].ctx == Some(c);
    }
  }

  /** Once its media type is latched, a series of calls with one context and
      a loaded buffer is a run of the bare state machine: the same final
      `qs`, and at each call the machine's quality with no reason. */
  lemma {:induction false} RunFollowsMachine(rule: RuleState, c: RulesContext, calls: seq<Call>)
    requires ValidLadder(c.ladder) && FragmentDurationKnown(c.fragmentDuration)
    requires Latched(rule.bufferStateDict, c.mediaType)
    requires SteadyCalls(calls, c)
    ensures forall i :: 0 <= i < |calls| ==> ValidCall(calls[i])
    ensures var t := Run(rule, calls);
            var mt := RunMachine(rule.qs, CallSamples(calls, c.mediaType), c.ladder, c.fragmentDuration.value);
            && t.rule.qs == mt.qs
            && Latched(t.rule.bufferStateDict, c.mediaType)
            && forall i :: 0 <= i < |calls| ==> t.requests[i] == SwitchRequest(mt.qualities[i], None)
    decreases |calls|
  {
    SteadyCallsValid(calls, c);
    if |calls| > 0 {
      var fd := c.fragmentDuration.value;
      var samples := CallSamples(calls, c.mediaType);
      SteadyCallsTail(calls, c);
      SteadyCallStep(rule, c, calls[0]);
      var d := GetMaxIndex(rule, calls[0].ctx, calls[0].metrics);
      var first := MachineStep(rule.qs, samples[0], c.ladder, fd);
      assert CallSamples(calls[1..], c.mediaType) == samples[1..];
      RunFollowsMachine(d.rule, c, calls[1..]);
      var t := Run(rule, calls);
      var rest := Run(d.rule, calls[1..]);
      var mt := RunMachine(rule.qs, samples, c.ladder, fd);
      var mrest := RunMachine(first.qs, samples[1..], c.ladder, fd);
      assert t.requests == [d.request] + rest.requests;
      assert mt.qualities == [first.quality] + mrest.qualities;
    }
  }

  /** The runway countdown, for calls of the rule: from TRANSITION with
      runway `n`, `Ticks(n)` calls with a loaded buffer return the default
      no-change request, and the next returns the quality of `newBitrate`
      at that call's latency and puts the rule back in STABLE. */
  lemma {:induction false} RuleCountdownCommits(rule: RuleState, c: RulesContext, calls: seq<Call>)
    requires ValidLadder(c.ladder) && FragmentDurationKnown(c.fragmentDuration)
    requires Latched(rule.bufferStateDict, c.mediaType)
    requires SteadyCalls(calls, c)
    requires rule.qs.currentState == Transition
    requires |calls| == Ticks(rule.qs.nfrag) + 1
    ensures forall i :: 0 <= i < |calls| ==> ValidCall(calls[i])
    ensures var t := Run(rule, calls);
            var last := |calls| - 1;
            && (forall i :: 0 <= i < last ==> t.requests[i] == DefaultRequest)
            && t.requests[last] == SwitchRequest(
                 Index(c.ladder.qualityForBitrate(rule.qs.newBitrate, calls[last].metrics.averageLatency(c.mediaType))),
                 None)
            && t.rule.qs.currentState == Stable
            && SameTransition(rule.qs, t.rule.qs)
  {
    RunFollowsMachine(rule, c, calls);
    CountdownCommits(rule.qs, CallSamples(calls, c.mediaType), c.ladder, c.fragmentDuration.value);
  }

  /** The plateau, for calls of the rule: while every call with a loaded
      buffer reports the throughput `qs` already holds, a STABLE rule
      returns the default request each time and only the window moves. */
  lemma {:induction false} RuleStablePlateau(rule: RuleState, c: RulesContext, calls: seq<Call>)
    requires ValidLadder(c.ladder) && FragmentDurationKnown(c.fragmentDuration)
    requires Latched(rule.bufferStateDict, c.mediaType)
    requires SteadyCalls(calls, c)
    requires rule.qs.currentState == Stable
    requires forall i :: 0 <= i < |calls| ==>
               calls[i].metrics.averageThroughput(c.mediaType) == rule.qs.currentThroughput
    ensures forall i :: 0 <= i < |calls| ==> ValidCall(calls[i])
    ensures var t := Run(rule, calls);
            && SameMachine(rule.qs, t.rule.qs)
            && forall i :: 0 <= i < |calls| ==> t.requests[i] == DefaultRequest
  {
    RunFollowsMachine(rule, c, calls);
    StablePlateau(rule.qs, CallSamples(calls, c.mediaType), c.ladder, c.fragmentDuration.value);
  }
}
