/** The boot-diagnostic round of boot_diag.c: a non-blocking state machine on core 0, two
  * analysers fed by core 1, and a result frozen over all passes. */
module BootDiag {
  import opened Words
  import BI = BusIntegrity
  import BD = BootDetect
  import BC = BootCapture

  const MAX_PASSES := 3
  const WINDOW_MS := 8000
  const SETTLE_MS := 60
  const MIN_READS := 64
  const MIN_ADDR_BITS := 6

  // ----- anomalies -----

  const CLK_ABSENT := 0
  const CLK_OUT_OF_RANGE := 1
  const RESET_STUCK := 2
  const NO_BUS_CYCLES := 3
  const WAIT_STUCK_LOW := 4

  /** What the round looks at in a bus_probe snapshot. */
  datatype Probe = Probe(clkHz: nat, inReset: bool, waitStuckLow: bool)

  function Classify(s: Probe, events: nat): set<nat> {
    (if s.clkHz == 0 then {CLK_ABSENT}
     else (if s.clkHz < 3000000 || s.clkHz > 4000000 then {CLK_OUT_OF_RANGE} else {})
          + (if events == 0 then {NO_BUS_CYCLES} else {}))
    + (if s.inReset then {RESET_STUCK} else {})
    + (if s.waitStuckLow then {WAIT_STUCK_LOW} else {})
  }

  /** The end of a pass: what the probe showed, and how many reads of the round had been counted. */
  datatype PassEnd = PassEnd(probe: Probe, count: nat)

  function ClassOf(e: PassEnd): set<nat> { Classify(e.probe, e.count) }

  /** The accumulated flags. */
  function AllFlags(ends: seq<PassEnd>): set<nat> {
    if ends == [] then {} else AllFlags(ends[..|ends| - 1]) + ClassOf(ends[|ends| - 1])
  }

  lemma {:induction false} InAllFlags(ends: seq<PassEnd>, a: nat)
    ensures a in AllFlags(ends) <==> exists i :: 0 <= i < |ends| && a in ClassOf(ends[i])
  {
    if ends != [] {
      var init := ends[..|ends| - 1];
      InAllFlags(init, a);
      assert forall i :: 0 <= i < |init| ==> init[i] == ends[i];
      assert ends[|init|] == ends[|ends| - 1];
    }
  }

  lemma {:induction false} AllFlagsStep(ends: seq<PassEnd>, e: PassEnd)
    ensures AllFlags(ends + [e]) == AllFlags(ends) + ClassOf(e)
  {
    assert (ends + [e])[..|ends|] == ends;
  }

  /** What a pass's end shows of each anomaly. */
  predicate Shows(e: PassEnd, a: nat) {
    if a == CLK_ABSENT then e.probe.clkHz == 0
    else if a == CLK_OUT_OF_RANGE then 0 < e.probe.clkHz < 3000000 || e.probe.clkHz > 4000000
    else if a == RESET_STUCK then e.probe.inReset
    else if a == NO_BUS_CYCLES then e.probe.clkHz != 0 && e.count == 0
    else a == WAIT_STUCK_LOW && e.probe.waitStuckLow
  }

  /** Flag by flag: set iff the end of some pass shows its cause. */
  lemma {:induction false} FlagIffShown(ends: seq<PassEnd>, a: nat)
    ensures a in AllFlags(ends) <==> exists i :: 0 <= i < |ends| && Shows(ends[i], a)
  {
    InAllFlags(ends, a);
    forall i | 0 <= i < |ends| ensures a in ClassOf(ends[i]) <==> Shows(ends[i], a) { ClassShows(ends[i], a); }
  }

  lemma ClassShows(e: PassEnd, a: nat)
    ensures a in ClassOf(e) <==> Shows(e, a)
  {
  }

  // ----- the state machine -----

  datatype Phase = Idle | PassBegin | Capturing | Settle | Done

  datatype Core = Core(phase: Phase, request: bool, inited: bool, pass: nat, deadline: nat)

  predicate Running(p: Phase) { p == PassBegin || p == Capturing || p == Settle }

  /** `(int32_t)(now - deadline) >= 0`. */
  predicate Reached(now: nat, deadline: nat) { Wrap32(now - deadline) < 0x8000_0000 }

  /** `(phase_flags & 0x1FF) == 0x1FF`. */
  predicate AllSeen(phases: set<nat>) { forall p: nat :: p < BD.PHASE_COUNT ==> p in phases }

  function StartCore(c: Core): Core { if Running(c.phase) then c else c.(request := true) }

  function TickCore(c: Core, now: nat, allSeen: bool): Core {
    match c.phase
    case PassBegin => c.(deadline := Wrap32(now + WINDOW_MS), phase := Capturing)
    case Capturing =>
      if Reached(now, c.deadline) then c.(deadline := Wrap32(now + SETTLE_MS), phase := Settle) else c
    case Settle =>
      if Reached(now, c.deadline) then
        c.(pass := c.pass + 1, phase := if allSeen || c.pass + 1 >= MAX_PASSES then Done else PassBegin)
      else c
    case _ => // Idle or Done
      if c.request then c.(request := false, inited := true, pass := 0, phase := PassBegin) else c
  }

  // ----- the result -----

  /** Everything handed to the analysers since they were last reset, and the end of each finished
    * pass. */
  datatype Trail = Trail(rs: seq<BI.Read>, words: seq<BC.Tagged>, ends: seq<PassEnd>)

  datatype Result = Result(
    anomalyFlags: set<nat>, stuckDataHi: set<nat>, stuckDataLo: set<nat>, stuckAddr: set<nat>,
    busUndriven: bool, cpChecked: set<nat>, cpFailed: set<nat>, nReads: nat,
    phaseFlags: set<nat>, lastConfirmed: int, firstMissing: int,
    earlyPpiWrites: bool, workAreaInit: bool, passesRun: nat)

  function Freeze(t: BI.Tally, d: BD.DetectState, anomalies: set<nat>, pass: nat): Result {
    Result(anomalies, BI.StuckDataHi(t, MIN_READS), BI.StuckDataLo(t, MIN_READS),
           BI.StuckAddr(t, MIN_READS, MIN_ADDR_BITS), BI.BusUndriven(t, MIN_READS),
           t.checks.checked, t.checks.failed, t.counts.total,
           d.phaseFlags, d.lastConfirmed, d.firstMissing, d.earlyPpiWrites, d.workAreaInit, pass)
  }

  function ResultOf(tr: Trail): Result {
    Freeze(BI.FeedAll(tr.rs), BC.After(tr.words), AllFlags(tr.ends), |tr.ends|)
  }

  // ----- what a frozen result says about everything that was drained -----

  /** The read-stream part, over the reads of all passes together. */
  lemma {:induction false} FrozenReadVerdicts(tr: Trail, k: nat)
    requires |tr.rs| < 0x8000_0000
    ensures ResultOf(tr).nReads == |tr.rs|
    ensures k < 8 ==>
      && (k in ResultOf(tr).stuckDataHi <==> |tr.rs| >= 64 && forall i :: 0 <= i < |tr.rs| ==> Bit(tr.rs[i].data, k))
      && (k in ResultOf(tr).stuckDataLo <==> |tr.rs| >= 64 && forall i :: 0 <= i < |tr.rs| ==> !Bit(tr.rs[i].data, k))
    ensures ResultOf(tr).stuckAddr ==
      if |tr.rs| >= 64 && 16 - |BI.ConstantBits(tr.rs)| >= 6 then BI.ConstantBits(tr.rs) else {}
    ensures ResultOf(tr).busUndriven <==>
      |tr.rs| >= 64 && 2 * (BI.CountData(tr.rs, 0x00) + BI.CountData(tr.rs, 0xFF)) > |tr.rs|
    ensures k < BI.N_CHECKPOINTS ==>
      && (k in ResultOf(tr).cpChecked <==> BI.SomeReadAt(tr.rs, k))
      && (k in ResultOf(tr).cpFailed <==> BI.SomeMismatch(tr.rs, k))
  {
    BI.CountsExactly(tr.rs);
    BI.CheckpointsExactly(tr.rs, k);
    if |tr.rs| >= 64 {
      if k < 8 { BI.StuckDataExact(tr.rs, MIN_READS, k); }
      BI.StuckAddrExact(tr.rs, MIN_READS, MIN_ADDR_BITS);
      BI.UndrivenExactIff(tr.rs, MIN_READS);
    }
  }

  /** The phase part: a phase is in the result iff some drained word means it; the stall point is
    * the lowest phase that none means. An anomaly is in it iff the end of
    * some pass shows its cause. */
  lemma {:induction false} FrozenPhasesAndAnomalies(tr: Trail, p: nat)
    ensures p in ResultOf(tr).phaseFlags <==> exists i :: 0 <= i < |tr.words| && BC.WordImplies(tr.words[i], p)
    ensures ResultOf(tr).lastConfirmed == BD.LastConfirmed(ResultOf(tr).phaseFlags, BD.PHASE_COUNT)
    ensures ResultOf(tr).firstMissing == BD.FirstMissing(ResultOf(tr).phaseFlags, 0)
    ensures p in ResultOf(tr).anomalyFlags <==> exists i :: 0 <= i < |tr.ends| && Shows(tr.ends[i], p)
    ensures ResultOf(tr).passesRun == |tr.ends|
  {
    BC.PhaseIffWord(tr.words, p);
    BD.DetectorExact(BC.Events(tr.words), p);
    FlagIffShown(tr.ends, p);
  }

  // ----- lifecycle, over every run of ticks, start requests and what leaves these statics alone -----

  datatype Op = StartOp | TickOp(t: nat, allSeen: bool) | OtherOp

  function ExecOp(c: Core, op: Op): Core {
    match op case StartOp => StartCore(c) case TickOp(t, seen) => TickCore(c, Wrap32(t), seen) case OtherOp => c
  }

  /** A run on the true clock: ticks never go back and are at most `gap` ms apart. */
  ghost predicate IsCoreRun(states: seq<Core>, ops: seq<Op>, t0: nat, gap: nat) {
    && |states| == |ops| + 1
    && forall i :: 0 <= i < |ops| ==>
         && states[i + 1] == ExecOp(states[i], ops[i])
         && (ops[i].TickOp? ==> LastTick(ops, i, t0) <= ops[i].t <= LastTick(ops, i, t0) + gap)
  }

  /** Time of the last tick among the first n operations, t0 before any. */
  function LastTick(ops: seq<Op>, n: nat, t0: nat): nat
    requires n <= |ops|
  {
    if n == 0 then t0 else if ops[n - 1].TickOp? then ops[n - 1].t else LastTick(ops, n - 1, t0)
  }

  /** A 32-bit deadline test is right exactly while the clock is less than 2^31 ms past it. */
  lemma ReachedExact(t: nat, due: nat)
    requires due <= t + 0x8000_0000 && t < due + U32
    ensures Reached(Wrap32(t), Wrap32(due)) <==> due <= t < due + 0x8000_0000
  {
    if due <= t {
      WrapDistance(due, t - due);
      assert Wrap32(Wrap32(t) - Wrap32(due)) == t - due;
    } else {
      WrapDistance(t, due - t);
      WrapBack(Wrap32(due) - Wrap32(t));
    }
  }

  lemma WrapBack(d: int)
    ensures Wrap32(d) == 0 ==> Wrap32(-d) == 0
    ensures Wrap32(d) > 0 ==> Wrap32(-d) == U32 - Wrap32(d)
  {
  }

  predicate DueAt(c: Core, due: nat) { c.deadline == Wrap32(due) }

  /** How long a round may need for `passes` passes when ticks are at most `gap` ms apart. */
  function Latest(passes: nat, gap: nat): nat {
    if passes == 0 then 0 else Latest(passes - 1, gap) + WINDOW_MS + SETTLE_MS + 3 * gap
  }

  function Earliest(passes: nat): nat { passes * (WINDOW_MS + SETTLE_MS) }

  /** Where a running round is on the clock: neither early nor late. */
  ghost predicate OnTrack(c: Core, last: nat, t0: nat, gap: nat) {
    && !c.request && c.pass < MAX_PASSES
    && (match c.phase
        case PassBegin => t0 + Earliest(c.pass) <= last <= t0 + Latest(c.pass, gap)
        case Capturing =>
          exists d: nat :: DueAt(c, d) && last < d <= last + WINDOW_MS
            && t0 + Earliest(c.pass) + WINDOW_MS <= d <= t0 + Latest(c.pass, gap) + gap + WINDOW_MS
        case Settle =>
          exists d: nat :: DueAt(c, d) && last < d <= last + SETTLE_MS
            && t0 + Earliest(c.pass + 1) <= d <= t0 + Latest(c.pass, gap) + 2 * gap + WINDOW_MS + SETTLE_MS
        case _ => false)
  }

  ghost predicate EndedOnTime(c: Core, last: nat, t0: nat, gap: nat, allSeen: bool) {
    && c.phase == Done && 1 <= c.pass <= MAX_PASSES
    && (c.pass < MAX_PASSES ==> allSeen)
    && t0 + Earliest(c.pass) <= last <= t0 + Latest(c.pass, gap)
  }

  lemma CapturingOnTrack(c: Core, last: nat, t0: nat, gap: nat, t: nat, d: nat, n: Core)
    requires OnTrack(c, last, t0, gap) && gap < 0x8000_0000 && last <= t <= last + gap && c.phase == Capturing
    requires DueAt(c, d) && last < d <= last + WINDOW_MS
    requires t0 + Earliest(c.pass) + WINDOW_MS <= d <= t0 + Latest(c.pass, gap) + gap + WINDOW_MS
    requires n == TickCore(c, Wrap32(t), false)
    ensures OnTrack(n, t, t0, gap)
  {
    ReachedExact(t, d);
    WrapAdd(t, SETTLE_MS);
    if d <= t { assert DueAt(n, t + SETTLE_MS); } else { assert DueAt(n, d); }
  }

  lemma SettleOnTrack(c: Core, last: nat, t0: nat, gap: nat, t: nat, allSeen: bool, d: nat, n: Core)
    requires OnTrack(c, last, t0, gap) && gap < 0x8000_0000 && last <= t <= last + gap && c.phase == Settle
    requires DueAt(c, d) && last < d <= last + SETTLE_MS
    requires t0 + Earliest(c.pass + 1) <= d <= t0 + Latest(c.pass, gap) + 2 * gap + WINDOW_MS + SETTLE_MS
    requires n == TickCore(c, Wrap32(t), allSeen)
    ensures OnTrack(n, t, t0, gap) || EndedOnTime(n, t, t0, gap, allSeen)
  {
    ReachedExact(t, d);
    if d <= t { assert n.pass == c.pass + 1; } else { assert DueAt(n, d); }
  }

  lemma TickOnTrack(c: Core, last: nat, t0: nat, gap: nat, t: nat, allSeen: bool)
    requires OnTrack(c, last, t0, gap) && gap < 0x8000_0000 && last <= t <= last + gap
    ensures var n := TickCore(c, Wrap32(t), allSeen);
            OnTrack(n, t, t0, gap) || EndedOnTime(n, t, t0, gap, allSeen)
  {
    var n := TickCore(c, Wrap32(t), allSeen);
    match c.phase
    case PassBegin =>
      WrapAdd(t, WINDOW_MS);
      assert DueAt(n, t + WINDOW_MS);
    case Capturing =>
      var d: nat :| DueAt(c, d) && last < d <= last + WINDOW_MS
            && t0 + Earliest(c.pass) + WINDOW_MS <= d <= t0 + Latest(c.pass, gap) + gap + WINDOW_MS;
      CapturingOnTrack(c, last, t0, gap, t, d, n);
    case Settle =>
      var d: nat :| DueAt(c, d) && last < d <= last + SETTLE_MS
            && t0 + Earliest(c.pass + 1) <= d <= t0 + Latest(c.pass, gap) + 2 * gap + WINDOW_MS + SETTLE_MS;
      SettleOnTrack(c, last, t0, gap, t, allSeen, d, n);
  }

  ghost predicate BeginsRound(c: Core) { c.phase == PassBegin && c.pass == 0 && !c.request }

  lemma {:induction false} StaysOnTrack(states: seq<Core>, ops: seq<Op>, t0: nat, gap: nat, n: nat)
    requires IsCoreRun(states, ops, t0, gap) && gap < 0x8000_0000 && BeginsRound(states[0]) && n < |states|
    requires forall i :: 0 <= i <= n ==> states[i].phase != Done
    ensures OnTrack(states[n], LastTick(ops, n, t0), t0, gap)
  {
    if n > 0 {
      StaysOnTrack(states, ops, t0, gap, n - 1);
      if ops[n - 1].TickOp? {
        TickOnTrack(states[n - 1], LastTick(ops, n - 1, t0), t0, gap, ops[n - 1].t, ops[n - 1].allSeen);
      }
    }
  }

  lemma LatestGrows(passes: nat, gap: nat)
    requires passes < MAX_PASSES
    ensures Latest(passes, gap) + WINDOW_MS + SETTLE_MS + 3 * gap <= Latest(3, gap) == 3 * (8060 + 3 * gap)
  {
    assert Latest(1, gap) == 8060 + 3 * gap;
    assert Latest(2, gap) == 2 * (8060 + 3 * gap);
    assert Latest(3, gap) == 3 * (8060 + 3 * gap);
  }

  /** With ticks at most `gap` ms apart, a round has reached DONE by the first tick that comes
    * 3 * (8060 + 3 * gap) ms after the one that began it, wherever the 32-bit clock wraps. */
  lemma RoundReachesDone(states: seq<Core>, ops: seq<Op>, t0: nat, gap: nat, n: nat)
    requires IsCoreRun(states, ops, t0, gap) && gap < 0x8000_0000 && BeginsRound(states[0]) && n < |states|
    requires LastTick(ops, n, t0) >= t0 + 3 * (8060 + 3 * gap)
    ensures exists i :: 0 <= i <= n && states[i].phase == Done
  {
    if forall i :: 0 <= i <= n ==> states[i].phase != Done {
      StaysOnTrack(states, ops, t0, gap, n);
      LatestGrows(states[n].pass, gap);
    }
  }

  /** When a round first reaches DONE: it ran 1 to 3 passes, fewer than 3 only because all nine
    * phases had been seen, no pass was cut short, and no start request changed anything. */
  lemma RoundOutcome(states: seq<Core>, ops: seq<Op>, t0: nat, gap: nat, n: nat)
    requires IsCoreRun(states, ops, t0, gap) && gap < 0x8000_0000 && BeginsRound(states[0])
    requires 0 < n < |states| && states[n].phase == Done
    requires forall i :: 0 <= i < n ==> states[i].phase != Done
    ensures ops[n - 1].TickOp?
    ensures EndedOnTime(states[n], LastTick(ops, n, t0), t0, gap, ops[n - 1].allSeen)
    ensures forall i :: 0 <= i < n && ops[i] == StartOp ==> states[i + 1] == states[i]
  {
    StaysOnTrack(states, ops, t0, gap, n - 1);
    if ops[n - 1].TickOp? {
      TickOnTrack(states[n - 1], LastTick(ops, n - 1, t0), t0, gap, ops[n - 1].t, ops[n - 1].allSeen);
    }
    forall i | 0 <= i < n && ops[i] == StartOp
      ensures states[i + 1] == states[i]
    {
      StaysOnTrack(states, ops, t0, gap, i);
    }
  }
}
