/** The round's deadlines, in every run of the whole round: drains, the DMA and commands may come
  * between any two ticks. */
module RoundClock {
  import opened Words
  import opened DiagRound
  import opened RoundRuns
  import B = BootDiag

  /** The true time of the last tick before step n, from step b on; step b is a tick. */
  function LastTick(steps: seq<Step>, times: seq<nat>, b: nat, n: nat): nat
    requires b < n <= |steps| == |times|
  {
    if n == b + 1 || steps[n - 1].Tick? then times[n - 1] else LastTick(steps, times, b, n - 1)
  }

  /** From the tick b on, ticks see the true time in 32 bits; it never goes back, and two ticks are at
    * most `gap` ms apart. */
  ghost predicate OnClock(steps: seq<Step>, times: seq<nat>, b: nat, gap: nat) {
    && b < |steps| == |times|
    && forall k :: b < k < |steps| && steps[k].Tick? ==>
         && steps[k].now == Wrap32(times[k])
         && LastTick(steps, times, b, k) <= times[k] <= LastTick(steps, times, b, k) + gap
  }

  /** Step b was the tick that took a request. */
  ghost predicate Begins(states: seq<Sys>, steps: seq<Step>, b: nat)
    requires |states| == |steps| + 1
  {
    b < |steps| && !B.Running(states[b].core.phase) && states[b + 1].core.phase == B.PassBegin
  }

  // ----- the round's own statics -----

  function OpOf(s: Sys, step: Step, t: nat): B.Op {
    match step
    case StartRequest => B.StartOp
    case Tick(_, _) => B.TickOp(t, B.AllSeen(s.cap.det.phaseFlags))
    case _ => B.OtherOp
  }

  function Cores(states: seq<Sys>, from: nat): (cs: seq<B.Core>)
    requires from <= |states|
    ensures |cs| == |states| - from
    ensures forall i :: 0 <= i < |cs| ==> cs[i] == states[from + i].core
  {
    seq(|states| - from, i requires 0 <= i < |states| - from => states[from + i].core)
  }

  function Ops(states: seq<Sys>, steps: seq<Step>, times: seq<nat>, from: nat): (ops: seq<B.Op>)
    requires from <= |steps| == |times| && |states| == |steps| + 1
    ensures |ops| == |steps| - from
    ensures forall i :: 0 <= i < |ops| ==> ops[i] == OpOf(states[from + i], steps[from + i], times[from + i])
  {
    seq(|steps| - from, i requires 0 <= i < |steps| - from => OpOf(states[from + i], steps[from + i], times[from + i]))
  }

  lemma CoreStep(s: Sys, step: Step, t: nat)
    requires Enabled(s, step) && (step.Tick? ==> step.now == Wrap32(t))
    ensures Exec(s, step).core == B.ExecOp(s.core, OpOf(s, step, t))
  {
    if step.Tick? { TickMovesCore(s, step.now, step.snap); }
  }

  lemma {:induction false} SameLastTick(states: seq<Sys>, steps: seq<Step>, times: seq<nat>, b: nat, i: nat)
    requires |states| == |steps| + 1 && b + 1 + i <= |steps| == |times|
    ensures B.LastTick(Ops(states, steps, times, b + 1), i, times[b]) == LastTick(steps, times, b, b + 1 + i)
  {
    if i > 0 { SameLastTick(states, steps, times, b, i - 1); }
  }

  /** Seen from these statics, the run is one of ticks and requests. */
  lemma CoresRun(states: seq<Sys>, steps: seq<Step>, times: seq<nat>, b: nat, gap: nat)
    requires IsRun(states, steps) && OnClock(steps, times, b, gap)
    ensures B.IsCoreRun(Cores(states, b + 1), Ops(states, steps, times, b + 1), times[b], gap)
  {
    var cores, ops := Cores(states, b + 1), Ops(states, steps, times, b + 1);
    forall i | 0 <= i < |ops|
      ensures cores[i + 1] == B.ExecOp(cores[i], ops[i])
      ensures ops[i].TickOp? ==> B.LastTick(ops, i, times[b]) <= ops[i].t <= B.LastTick(ops, i, times[b]) + gap
    {
      RunStep(states, steps, b + 1 + i);
      CoreStep(states[b + 1 + i], steps[b + 1 + i], times[b + 1 + i]);
      SameLastTick(states, steps, times, b, i);
    }
  }

  lemma BeginsAlone(states: seq<Sys>, steps: seq<Step>, b: nat)
    requires IsRun(states, steps) && Begins(states, steps, b)
    ensures B.BeginsRound(states[b + 1].core)
  {
    RunStep(states, steps, b);
    BeginsEmpty(states[b], steps[b]);
  }

  lemma {:induction false} StaysRunning(states: seq<Sys>, steps: seq<Step>, b: nat, n: nat)
    requires IsRun(states, steps) && Begins(states, steps, b) && b < n < |states|
    requires forall i :: b < i <= n ==> states[i].core.phase != B.Done
    ensures B.Running(states[n].core.phase)
    decreases n
  {
    if n > b + 1 {
      StaysRunning(states, steps, b, n - 1);
      RunStep(states, steps, n - 1);
      RunningStep(states[n - 1], steps[n - 1]);
    }
  }

  lemma RunningStep(s: Sys, step: Step)
    requires Enabled(s, step) && B.Running(s.core.phase) && Exec(s, step).core.phase != B.Done
    ensures B.Running(Exec(s, step).core.phase)
  {
  }

  // ----- the results -----

  /** With ticks at most `gap` ms apart, a round has reached DONE by the first tick that comes
    * 3 * (8060 + 3 * gap) ms after the one that began it, wherever the 32-bit clock wraps and whatever
    * core 1, the DMA and the RESET command do meanwhile. */
  lemma RoundReachesDone(states: seq<Sys>, steps: seq<Step>, times: seq<nat>, b: nat, gap: nat, n: nat)
    requires IsRun(states, steps) && Begins(states, steps, b) && OnClock(steps, times, b, gap) && gap < 0x8000_0000
    requires b < n <= |steps| && LastTick(steps, times, b, n) >= times[b] + 3 * (8060 + 3 * gap)
    ensures exists i :: b < i <= n && states[i].core.phase == B.Done
  {
    CoresRun(states, steps, times, b, gap);
    BeginsAlone(states, steps, b);
    var i := CoreReachesDone(states, steps, times, b, gap, n);
  }

  lemma CoreReachesDone(states: seq<Sys>, steps: seq<Step>, times: seq<nat>, b: nat, gap: nat, n: nat)
    returns (i: nat)
    requires |states| == |steps| + 1 && b < n <= |steps| == |times| && gap < 0x8000_0000
    requires B.IsCoreRun(Cores(states, b + 1), Ops(states, steps, times, b + 1), times[b], gap)
    requires B.BeginsRound(states[b + 1].core)
    requires LastTick(steps, times, b, n) >= times[b] + 3 * (8060 + 3 * gap)
    ensures b < i <= n && states[i].core.phase == B.Done
  {
    SameLastTick(states, steps, times, b, n - b - 1);
    i := DoneAmong(Cores(states, b + 1), Ops(states, steps, times, b + 1), times[b], gap, n - b - 1);
    i := b + 1 + i;
  }

  lemma DoneAmong(cores: seq<B.Core>, ops: seq<B.Op>, t0: nat, gap: nat, n: nat) returns (i: nat)
    requires B.IsCoreRun(cores, ops, t0, gap) && gap < 0x8000_0000 && B.BeginsRound(cores[0]) && n < |cores|
    requires B.LastTick(ops, n, t0) >= t0 + 3 * (8060 + 3 * gap)
    ensures i <= n && cores[i].phase == B.Done
  {
    B.RoundReachesDone(cores, ops, t0, gap, n);
    i :| 0 <= i <= n && cores[i].phase == B.Done;
  }

  /** The tick that finishes a round freezes what the detector and the round's own count say. */
  lemma ResultOfFinish(s: Sys, step: Step)
    requires Enabled(s, step) && s.core.phase != B.Done && Exec(s, step).core.phase == B.Done
    ensures var t := Exec(s, step); t.result.passesRun == t.core.pass && t.result.phaseFlags == s.cap.det.phaseFlags
  {
  }

  lemma PassTimes(passes: nat, gap: nat)
    requires 1 <= passes <= 3
    ensures B.Earliest(passes) == 8060 * passes && B.Latest(passes, gap) == passes * (8060 + 3 * gap)
  {
    B.LatestGrows(0, gap);
    assert B.Latest(1, gap) == 8060 + 3 * gap;
    assert B.Latest(2, gap) == 2 * (8060 + 3 * gap);
  }

  lemma LastOp(states: seq<Sys>, steps: seq<Step>, times: seq<nat>, b: nat, n: nat)
    requires |states| == |steps| + 1 && b + 1 < n <= |steps| == |times|
    requires Ops(states, steps, times, b + 1)[n - b - 2].TickOp?
    ensures steps[n - 1].Tick?
    ensures Ops(states, steps, times, b + 1)[n - b - 2] == B.TickOp(times[n - 1], B.AllSeen(states[n - 1].cap.det.phaseFlags))
    ensures B.LastTick(Ops(states, steps, times, b + 1), n - b - 1, times[b]) == times[n - 1]
  {
  }

  /** In terms of the round's own statics. */
  ghost predicate Ended(passes: nat, start: nat, end: nat, gap: nat, allSeen: bool) {
    && 1 <= passes <= 3 && (passes < 3 ==> allSeen)
    && start + 8060 * passes <= end <= start + passes * (8060 + 3 * gap)
  }

  lemma FirstDone(cores: seq<B.Core>, ops: seq<B.Op>, t0: nat, gap: nat, n: nat)
    requires B.IsCoreRun(cores, ops, t0, gap) && gap < 0x8000_0000 && B.BeginsRound(cores[0])
    requires 0 < n < |cores| && cores[n].phase == B.Done
    requires forall i :: 0 <= i < n ==> cores[i].phase != B.Done
    ensures ops[n - 1].TickOp? && Ended(cores[n].pass, t0, B.LastTick(ops, n, t0), gap, ops[n - 1].allSeen)
  {
    B.RoundOutcome(cores, ops, t0, gap, n);
    PassTimes(cores[n].pass, gap);
  }

  lemma CoreOutcome(states: seq<Sys>, steps: seq<Step>, times: seq<nat>, b: nat, gap: nat, n: nat)
    requires |states| == |steps| + 1 && b + 1 < n <= |steps| == |times| && gap < 0x8000_0000
    requires B.IsCoreRun(Cores(states, b + 1), Ops(states, steps, times, b + 1), times[b], gap)
    requires B.BeginsRound(states[b + 1].core) && states[n].core.phase == B.Done
    requires forall i :: b < i < n ==> states[i].core.phase != B.Done
    ensures steps[n - 1].Tick?
    ensures Ended(states[n].core.pass, times[b], times[n - 1], gap, B.AllSeen(states[n - 1].cap.det.phaseFlags))
  {
    FirstDone(Cores(states, b + 1), Ops(states, steps, times, b + 1), times[b], gap, n - b - 1);
    LastOp(states, steps, times, b, n);
  }

  /** When it first does, by a tick: the result counts 1 to 3 passes, fewer than 3 only with all nine
    * phases in it; no pass was cut short and none took too long; no start request changed anything. */
  lemma RoundOutcome(states: seq<Sys>, steps: seq<Step>, times: seq<nat>, b: nat, gap: nat, n: nat)
    requires IsRun(states, steps) && Begins(states, steps, b) && OnClock(steps, times, b, gap) && gap < 0x8000_0000
    requires b + 1 < n <= |steps| && states[n].core.phase == B.Done
    requires forall i :: b < i < n ==> states[i].core.phase != B.Done
    ensures steps[n - 1].Tick?
    ensures var r := states[n].result; Ended(r.passesRun, times[b], times[n - 1], gap, B.AllSeen(r.phaseFlags))
    ensures forall i :: b < i < n && steps[i] == StartRequest ==> states[i + 1] == states[i]
  {
    CoresRun(states, steps, times, b, gap);
    BeginsAlone(states, steps, b);
    CoreOutcome(states, steps, times, b, gap, n);
    RunStep(states, steps, n - 1);
    ResultOfFinish(states[n - 1], steps[n - 1]);
    forall i | b < i < n && steps[i] == StartRequest
      ensures states[i + 1] == states[i]
    {
      RunStep(states, steps, i);
      StaysRunning(states, steps, b, i);
    }
  }
}
