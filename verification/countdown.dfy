/** Runs of the state machine over several calls: the TRANSITION countdown
    and the STABLE plateau. */
module QDashCountdown {
  import opened QDashTypes
  import opened QDashMachine

  /** The number of no-change TRANSITION calls a runway of `n` buys: the
      ceiling of `n` when it is positive, none otherwise. */
  function Ticks(n: real): (k: nat)
    ensures n <= 0.0 ==> k == 0
    ensures n > 0.0 ==> (k - 1) as real < n <= k as real
  {
    if n <= 0.0 then 0
    else if n.Floor as real == n then n.Floor
    else n.Floor + 1
  }

  /** Spending one fragment of a positive runway leaves one tick fewer. */
  lemma TicksDecrement(n: real)
    requires n > 0.0
    ensures Ticks(n - 1.0) == Ticks(n) - 1
  {
  }

  /** The states and requests of consecutive machine steps. */
  datatype MachineTrace = MachineTrace(qs: EngineState, qualities: seq<Quality>)

  /** Runs the machine over one sample per call, in order. */
  function RunMachine(qs: EngineState, samples: seq<Sample>, ladder: Ladder, fragmentDuration: real): (t: MachineTrace)
    requires ValidLadder(ladder) && fragmentDuration != 0.0
    ensures |t.qualities| == |samples|
    ensures |samples| > 0 ==> t.qs.currentThroughput == samples[|samples| - 1].throughput
    decreases |samples|
  {
    if |samples| == 0 then MachineTrace(qs, [])
    else
      var first := MachineStep(qs, samples[0], ladder, fragmentDuration);
      var rest := RunMachine(first.qs, samples[1..], ladder, fragmentDuration);
      MachineTrace(rest.qs, [first.quality] + rest.qualities)
  }

  /** While the runway lasts, each call lowers `nfrag` by exactly one and
      asks for no change; nothing fixed on entry moves. */
  lemma {:induction false} CountdownHolds(qs: EngineState, samples: seq<Sample>, ladder: Ladder, fragmentDuration: real)
    requires ValidLadder(ladder) && fragmentDuration != 0.0
    requires qs.currentState == Transition
    requires |samples| <= Ticks(qs.nfrag)
    ensures var t := RunMachine(qs, samples, ladder, fragmentDuration);
            && t.qs.currentState == Transition
            && t.qs.nfrag == qs.nfrag - |samples| as real
            && SameTransition(qs, t.qs)
            && forall i :: 0 <= i < |samples| ==> t.qualities[i] == NoChange
    decreases |samples|
  {
    if |samples| > 0 {
      var first := MachineStep(qs, samples[0], ladder, fragmentDuration);
      assert first.qs.nfrag == qs.nfrag - 1.0;
      TicksDecrement(qs.nfrag);
      CountdownHolds(first.qs, samples[1..], ladder, fragmentDuration);
      var t := RunMachine(qs, samples, ladder, fragmentDuration);
      var rest := RunMachine(first.qs, samples[1..], ladder, fragmentDuration);
      assert t.qualities == [NoChange] + rest.qualities;
    }
  }

  /** Entering TRANSITION with runway `n`, exactly `Ticks(n)` calls ask for
      no change, and the next one commits to the quality of the new bitrate
      and returns to STABLE. */
  lemma {:induction false} CountdownCommits(qs: EngineState, samples: seq<Sample>, ladder: Ladder, fragmentDuration: real)
    requires ValidLadder(ladder) && fragmentDuration != 0.0
    requires qs.currentState == Transition
    requires |samples| == Ticks(qs.nfrag) + 1
    ensures var t := RunMachine(qs, samples, ladder, fragmentDuration);
            var last := |samples| - 1;
            && (forall i :: 0 <= i < last ==> t.qualities[i] == NoChange)
            && t.qualities[last] == Index(ladder.qualityForBitrate(qs.newBitrate, samples[last].latency))
            && t.qs.currentState == Stable
            && t.qs.nfrag == qs.nfrag - Ticks(qs.nfrag) as real
            && SameTransition(qs, t.qs)
    decreases |samples|
  {
    var first := MachineStep(qs, samples[0], ladder, fragmentDuration);
    var rest := RunMachine(first.qs, samples[1..], ladder, fragmentDuration);
    var t := RunMachine(qs, samples, ladder, fragmentDuration);
    assert t.qualities == [first.quality] + rest.qualities;
    if qs.nfrag <= 0.0 {
      assert |samples| == 1;
    } else {
      TicksDecrement(qs.nfrag);
      CountdownCommits(first.qs, samples[1..], ladder, fragmentDuration);
      assert forall i :: 1 <= i < |samples| ==> t.qualities[i] == rest.qualities[i - 1];
    }
  }

  /** A STABLE machine fed the throughput it already holds stays STABLE,
      asks for no change, and keeps every field outside the window. */
  lemma {:induction false} StablePlateau(qs: EngineState, samples: seq<Sample>, ladder: Ladder, fragmentDuration: real)
    requires ValidLadder(ladder) && fragmentDuration != 0.0
    requires qs.currentState == Stable
    requires forall i :: 0 <= i < |samples| ==> samples[i].throughput == qs.currentThroughput
    ensures var t := RunMachine(qs, samples, ladder, fragmentDuration);
            && SameMachine(qs, t.qs)
            && t.qs.currentThroughput == qs.currentThroughput
            && forall i :: 0 <= i < |samples| ==> t.qualities[i] == NoChange
    decreases |samples|
  {
    if |samples| > 0 {
      var first := MachineStep(qs, samples[0], ladder, fragmentDuration);
      StablePlateau(first.qs, samples[1..], ladder, fragmentDuration);
      var t := RunMachine(qs, samples, ladder, fragmentDuration);
      var rest := RunMachine(first.qs, samples[1..], ladder, fragmentDuration);
      assert t.qualities == [NoChange] + rest.qualities;
    }
  }
}
