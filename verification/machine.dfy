/** The STABLE/TRANSITION state machine of `getMaxIndex`: what one call on
    the non-empty-buffer path does to `qs`, and what it asks for. */
module QDashMachine {
  import opened QDashTypes

  /** The fields fixed on entry to TRANSITION agree. */
  predicate SameTransition(a: EngineState, b: EngineState) {
    && a.tbuffer == b.tbuffer
    && a.sfrag == b.sfrag
    && a.newBitrate == b.newBitrate
    && a.oldBitrate == b.oldBitrate
  }

  /** Every field of `qs` other than the throughput window agrees. */
  predicate SameMachine(a: EngineState, b: EngineState) {
    && a.currentState == b.currentState
    && a.nfrag == b.nfrag
    && SameTransition(a, b)
  }

  /** The window keeps the last two samples and their difference. */
  predicate WindowConsistent(qs: EngineState) {
    qs.throughputDelta == qs.currentThroughput - qs.oldThroughput
  }

  /** The throughput delta is outside the noise threshold `epsilon`. With
      `epsilon` at 0, every non-zero delta counts as a change. */
  function ThroughputChanged(delta: real): (changed: bool)
    ensures changed <==> delta != 0.0
  {
    delta < -Epsilon || delta > Epsilon
  }

  /** Shifts the two-sample throughput window by one new sample. */
  function ShiftThroughput(qs: EngineState, throughput: real): (w: EngineState)
    ensures w.oldThroughput == qs.currentThroughput
    ensures w.currentThroughput == throughput
    ensures WindowConsistent(w)
    ensures SameMachine(qs, w)
  {
    qs.(oldThroughput := qs.currentThroughput,
        currentThroughput := throughput,
        throughputDelta := throughput - qs.currentThroughput)
  }

  /** `getIntermediateQualityIdx`: the quality halfway (rounded down)
      between the qualities of two bitrates at the given latency. */
  function IntermediateQualityIdx(ladder: Ladder, br0: real, br1: real, latency: real): (idx: nat)
    ensures var q0 := ladder.qualityForBitrate(br0, latency);
            var q1 := ladder.qualityForBitrate(br1, latency);
            && 2 * idx <= q0 + q1 < 2 * idx + 2
            && (q0 <= idx <= q1 || q1 <= idx <= q0)
    ensures ValidLadder(ladder) ==> idx < |ladder.bitrates|
  {
    (ladder.qualityForBitrate(br0, latency) + ladder.qualityForBitrate(br1, latency)) / 2
  }

  /** Estimated fragment size at a quality of the ladder: its bitrate in
      kilobits per second times the fragment duration. */
  function FragmentSize(ladder: Ladder, idx: nat, fragmentDuration: real): (s: real)
    requires ValidLadder(ladder) && idx < |ladder.bitrates|
    requires fragmentDuration != 0.0
    ensures s != 0.0
    ensures s * 1000.0 == ladder.bitrates[idx] * fragmentDuration
  {
    ladder.bitrates[idx] / 1000.0 * fragmentDuration
  }

  /** The outcome of one step of the machine. */
  datatype MachineOutput = MachineOutput(qs: EngineState, quality: Quality)

  /** One call of `getMaxIndex` past the gates with a non-empty buffer:
      shift the throughput window, then run STABLE or TRANSITION. */
  function MachineStep(qs: EngineState, s: Sample, ladder: Ladder, fragmentDuration: real): (r: MachineOutput)
    requires ValidLadder(ladder)
    requires fragmentDuration != 0.0
    // the window moves in both states
    ensures r.qs.oldThroughput == qs.currentThroughput
    ensures r.qs.currentThroughput == s.throughput
    ensures r.qs.throughputDelta == s.throughput - qs.currentThroughput
    // every emitted quality indexes the bitrate list
    ensures r.quality.Index? ==> r.quality.index < |ladder.bitrates|
    // STABLE and the delta within the threshold: nothing but the window moves
    ensures qs.currentState == Stable && !ThroughputChanged(s.throughput - qs.currentThroughput) ==>
              && r.quality == NoChange
              && SameMachine(qs, r.qs)
    // STABLE and the throughput moved: enter TRANSITION at the midpoint quality
    ensures qs.currentState == Stable && ThroughputChanged(s.throughput - qs.currentThroughput) ==>
              var idx := IntermediateQualityIdx(ladder, qs.currentThroughput, s.throughput, s.latency);
              && r.quality == Index(idx)
              && r.qs.currentState == Transition
              && r.qs.oldBitrate == qs.currentThroughput
              && r.qs.newBitrate == s.throughput
              && r.qs.tbuffer == s.bufferLevel
              && r.qs.sfrag == FragmentSize(ladder, idx, fragmentDuration)
              && r.qs.nfrag * r.qs.sfrag == r.qs.tbuffer * r.qs.newBitrate
    // TRANSITION with runway left: count it down by one, hold the quality
    ensures qs.currentState == Transition && qs.nfrag > 0.0 ==>
              && r.quality == NoChange
              && r.qs.currentState == Transition
              && r.qs.nfrag == qs.nfrag - 1.0
              && r.qs.(nfrag := qs.nfrag) == ShiftThroughput(qs, s.throughput)
    // TRANSITION with the runway used up: commit to the new bitrate
    ensures qs.currentState == Transition && qs.nfrag <= 0.0 ==>
              && r.quality == Index(ladder.qualityForBitrate(qs.newBitrate, s.latency))
              && r.qs.currentState == Stable
              && r.qs.(currentState := Transition) == ShiftThroughput(qs, s.throughput)
  {
    var w := ShiftThroughput(qs, s.throughput);
    match w.currentState
    case Stable =>
      if ThroughputChanged(w.throughputDelta) then
        var idx := IntermediateQualityIdx(ladder, w.oldThroughput, w.currentThroughput, s.latency);
        var sfrag := FragmentSize(ladder, idx, fragmentDuration);
        var entered := w.(oldBitrate := w.oldThroughput,
                          newBitrate := w.currentThroughput,
                          sfrag := sfrag,
                          tbuffer := s.bufferLevel,
                          nfrag := s.bufferLevel * w.currentThroughput / sfrag,
                          currentState := Transition);
        MachineOutput(entered, Index(idx))
      else
        MachineOutput(w, NoChange)
    case Transition =>
      if w.nfrag <= 0.0 then
        MachineOutput(w.(currentState := Stable), Index(ladder.qualityForBitrate(w.newBitrate, s.latency)))
      else
        MachineOutput(w.(nfrag := w.nfrag - 1.0), NoChange)
  }

  /** Invariant of `qs`: the window is consistent, and in TRANSITION the
      runway never exceeds the one computed on entry. */
  predicate EngineInvariant(qs: EngineState) {
    && WindowConsistent(qs)
    && (qs.currentState == Transition ==>
          qs.sfrag != 0.0 && qs.nfrag <= qs.tbuffer * qs.newBitrate / qs.sfrag)
  }

  /** Every step of the machine keeps the invariant. */
  lemma MachineStepKeepsInvariant(qs: EngineState, s: Sample, ladder: Ladder, fragmentDuration: real)
    requires ValidLadder(ladder) && fragmentDuration != 0.0
    requires EngineInvariant(qs)
    ensures EngineInvariant(MachineStep(qs, s, ladder, fragmentDuration).qs)
  {
  }
}
