/** When a round stops: after the first pass by which all nine phases have shown on the bus, at the latest
  * after the third. */
module RoundStop {
  import opened Words
  import opened BootDiag
  import opened DiagRound
  import opened RoundRuns
  import BC = BootCapture
  import BD = BootDetect
  import BY = BusCycles
  import CD = CaptureDrain

  /** Some word that the drains of these passes handed over is a cycle that means phase p. */
  ghost predicate Met(ps: seq<Pass>, p: nat) {
    exists k :: 0 <= k < |FlatWords(ps)| && BY.TaggedMeans(FlatWords(ps)[k], p)
  }

  /** All nine phases are met. */
  ghost predicate Complete(ps: seq<Pass>) { forall p: nat :: p < BD.PHASE_COUNT ==> Met(ps, p) }

  /** After no pass were all nine phases met. */
  ghost predicate NeverComplete(ps: seq<Pass>) { ps == [] || (NeverComplete(ps[..|ps| - 1]) && !Complete(ps)) }

  /** The last pass is the first after which they were, or the third. */
  ghost predicate StoppedRight(ps: seq<Pass>) {
    ps != [] && NeverComplete(ps[..|ps| - 1]) && (Complete(ps) || |ps| == MAX_PASSES) && |ps| <= MAX_PASSES
  }

  ghost predicate StopOk(s: Sys) {
    && (Running(s.core.phase) && !s.spoiled ==> NeverComplete(s.passes))
    && (s.core.phase == Done && !s.spoiled ==> StoppedRight(s.passes))
  }

  lemma {:induction false} AllMet(s: Sys)
    requires CapSide(s) && s.core.phase == Settle && !s.spoiled
    ensures AllSeen(s.cap.det.phaseFlags) <==> Complete(s.passes + [PassOf(s)])
  {
    var ps := s.passes + [PassOf(s)];
    FlatStep(s.passes, PassOf(s));
    assert FlatWords(ps) == s.cap.all[s.cap.detFrom..];
    forall p: nat ensures p in s.cap.det.phaseFlags <==> Met(ps, p) { BY.PhaseIffCycle(FlatWords(ps), p); }
  }

  lemma {:induction false} OneMorePass(ps: seq<Pass>, p: Pass)
    ensures NeverComplete(ps + [p]) <==> NeverComplete(ps) && !Complete(ps + [p])
    ensures |ps| < MAX_PASSES && NeverComplete(ps) && (Complete(ps + [p]) || |ps| + 1 == MAX_PASSES) ==> StoppedRight(ps + [p])
  {
    assert (ps + [p])[..|ps|] == ps;
  }

  lemma AfterEnd(s: Sys, snap: Probe)
    requires CoreOk(s) && s.core.phase == Settle
    ensures var t := PassEnded(s, snap);
            && t.passes == s.passes + [PassOf(s)] && t.spoiled == s.spoiled
            && t.core.phase == if AllSeen(s.cap.det.phaseFlags) || |s.passes| + 1 == MAX_PASSES then Done else PassBegin
  {
  }

  lemma EndStopsRight(s: Sys, snap: Probe)
    requires CoreOk(s) && CapSide(s) && s.core.phase == Settle && StopOk(s)
    ensures StopOk(PassEnded(s, snap))
  {
    AfterEnd(s, snap);
    if !s.spoiled {
      AllMet(s);
      OneMorePass(s.passes, PassOf(s));
    }
  }

  lemma TickStopsRight(s: Sys, now: Word, snap: Probe)
    requires CoreOk(s) && CapSide(s) && Enabled(s, Tick(now, snap)) && StopOk(s)
    ensures StopOk(Exec(s, Tick(now, snap)))
  {
    match s.core.phase
    case PassBegin =>
    case Capturing =>
    case Settle => EndStopsRight(s, snap);
    case _ =>
  }

  lemma StepStopsRight(s: Sys, step: Step)
    requires CoreOk(s) && CapSide(s) && Enabled(s, step) && StopOk(s)
    ensures StopOk(Exec(s, step))
  {
    match step
    case StartRequest =>
    case Tick(now, snap) => TickStopsRight(s, now, snap);
    case Enter =>
    case Leave =>
    case Cap(cap) =>
    case Txn(txn) =>
    case Command(part) =>
  }

  lemma RunKeepsCapSide(states: seq<Sys>, steps: seq<Step>, n: nat)
    requires IsRun(states, steps) && n < |states|
    ensures CoreOk(states[n]) && CapSide(states[n])
  {
    RunKeepsInv(states, steps, n);
  }

  lemma NextStopsRight(s: Sys, step: Step, t: Sys)
    ensures CoreOk(s) && CapSide(s) && Next(s, step, t) && StopOk(s) ==> StopOk(t)
  {
    if CoreOk(s) && CapSide(s) && Next(s, step, t) && StopOk(s) { StepStopsRight(s, step); }
  }

  lemma OneStepStopsRight(states: seq<Sys>, steps: seq<Step>, i: nat)
    requires IsRun(states, steps) && i < |steps|
    ensures StopOk(states[i]) ==> StopOk(states[i + 1])
  {
    RunKeepsCapSide(states, steps, i);
    RunNext(states, steps, i);
    NextStopsRight(states[i], steps[i], states[i + 1]);
  }

  lemma {:induction false} RunStopsRight(states: seq<Sys>, steps: seq<Step>, n: nat)
    requires IsRun(states, steps) && n < |states|
    ensures StopOk(states[n])
  {
    if n > 0 {
      RunStopsRight(states, steps, n - 1);
      OneStepStopsRight(states, steps, n - 1);
    }
  }

  lemma {:induction false} NeverAt(ps: seq<Pass>, i: nat)
    requires NeverComplete(ps) && 0 < i <= |ps|
    ensures !Complete(ps[..i])
  {
    if i == |ps| {
      assert ps[..i] == ps;
    } else {
      NeverAt(ps[..|ps| - 1], i);
      assert ps[..|ps| - 1][..i] == ps[..i];
    }
  }

  /** In every run, an undisturbed round that is done ran one to three passes; it stopped before the third
    * only with all nine phases met, and after no earlier pass were they. */
  lemma RoundStopsWhenComplete(states: seq<Sys>, steps: seq<Step>, b: nat, n: nat)
    requires IsRun(states, steps) && Undisturbed(states, steps, b, n) && states[n].core.phase == Done
    ensures var ps := states[n].passes;
            && 1 <= |ps| <= 3 && (|ps| < 3 ==> Complete(ps))
            && forall i :: 0 < i < |ps| ==> !Complete(ps[..i])
  {
    RunStopsRight(states, steps, n);
    NotSpoiled(states, steps, b, n);
    var ps := states[n].passes;
    forall i | 0 < i < |ps| ensures !Complete(ps[..i]) {
      NeverAt(ps[..|ps| - 1], i);
      assert ps[..|ps| - 1][..i] == ps[..i];
    }
  }
}
