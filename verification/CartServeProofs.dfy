/** Safety and progress of the ROM-serving pipeline, over every run of CartServe. */
module CartServeProofs {
  import opened Words
  import opened RomLut
  import opened CartServe

  // ----- the invariant -----

  /** The pointer that this bus cycle must push, and the byte it must end up with. */
  function Pointer(c: Config, s: State): Item { Item(c.lutBase + s.lines.addr, s.cycle) }

  function Answer(c: Config, s: State): Item
    requires Wf(c)
  {
    Item(if s.lines.addr < LUT_LEN then c.lut[s.lines.addr] else 0, s.cycle)
  }

  function InFlight(s: State): nat {
    |s.a.rx| + (if s.dma.aLatch.Some? then 1 else 0) + (if s.dma.bBusy then 1 else 0) + |s.r.tx|
  }

  ghost predicate AddrRegisters(c: Config, a: AddrSm) {
    var high := c.lutBase / LUT_LEN;
    && (a.pc == PullBlock ==> a.tx == [high])
    && (a.pc == MovX ==> a.osr == high)
    && (a.pc != PullBlock && a.pc != MovX ==> a.x == high)
    && a.isr == (if a.pc == InPins then high else 0)
  }

  ghost predicate DriveDiscipline(r: ReadSm) {
    && (r.lvcHigh <==> r.pc in {WaitSltsl, JmpRd, SetDirLow})
    && r.pinDirs == (if r.pc in {PullByte, OutPins, Nop, WaitRd, MovOsrZero, OutDirsOff} then 255 else 0)
    && (r.pc == OutDirsOn ==> r.osr.value == U32 - 1)
    && (r.pc == OutDirsOff ==> r.osr.value == 0)
  }

  /** Every item in flight belongs to this very bus cycle. */
  ghost predicate FlightIsCurrent(c: Config, s: State)
    requires Wf(c)
  {
    && (forall i :: 0 <= i < |s.a.rx| ==> s.a.rx[i] == Pointer(c, s))
    && (s.dma.aLatch.Some? ==> s.dma.aLatch.value == Pointer(c, s))
    && (s.dma.bBusy ==> s.dma.bReadAddr == Pointer(c, s))
    && (s.dma.bLatch.Some? ==> s.dma.bBusy && s.dma.bLatch.value == Answer(c, s))
    && (forall i :: 0 <= i < |s.r.tx| ==> s.r.tx[i] == Answer(c, s))
  }

  predicate Pushed(s: State) { s.a.pc == AddrWaitRd }

  predicate Pulled(s: State) { s.r.pc in {OutPins, Nop, WaitRd} }

  ghost predicate LiveInv(c: Config, s: State)
    requires Wf(c)
  {
    && AddrRegisters(c, s.a)
    && FlightIsCurrent(c, s)
    && s.dma.lostTriggers == 0
    && s.pushed == s.pulled + InFlight(s)
    && (s.stage == HalfArmed ==> s.a.pc == PullBlock)
    && (s.a.pc == AddrJmp ==> !s.lines.sltsl)
    && (s.r.pc == JmpRd ==> !s.lines.sltsl)
    && (if Reading(s.lines) then
          && s.r.pc !in {MovOsrZero, OutDirsOff, SetDirHigh}
          && (Pulled(s) ==> Pushed(s))
          && InFlight(s) == (if Pushed(s) && !Pulled(s) then 1 else 0)
          && (s.r.pc == OutPins ==> s.r.osr == Answer(c, s))
          && (s.r.pc in {Nop, WaitRd} ==> s.r.pins == Answer(c, s))
        else
          && InFlight(s) == 0
          && s.a.pc !in {InX, InPins}
          && s.r.pc in {WaitSltsl, JmpRd, WaitRd, MovOsrZero, OutDirsOff, SetDirHigh}
          && (s.a.pc == AddrWaitRd || s.r.pc == WaitRd ==> s.lines.rd))
  }

  /** A finished read was answered by the plain read-only memory, with a byte fetched
    * during that read; once drive is disabled nothing is answered at all. */
  ghost predicate ServedRight(c: Config, e: Served)
    requires Wf(c)
  {
    && e.addr < LUT_LEN
    && e.latched == if e.serving then Some(Item(c.lut[e.addr], e.cycle)) else None
  }

  ghost predicate Inv(c: Config, s: State)
    requires Wf(c)
  {
    && s.lines.addr < LUT_LEN
    && DriveDiscipline(s.r)
    && (s.stage == Off ==> !s.pioOwnsPins)
    && (s.stage == Configured ==> s.a == FreshAddr(c, s.a) && s.r == FreshRead(s.r) && s.dma == FreshDma()
                                  && s.pushed == 0 && s.pulled == 0)
    && (ReadRunning(s) ==> LiveInv(c, s))
    && (forall i :: 0 <= i < |s.log| ==> ServedRight(c, s.log[i]))
  }

  // ----- every step keeps it -----

  /** The 64K alignment is exactly what makes the shifted-in pair of halves a table pointer. */
  lemma PointerFormula(c: Config, raw: nat)
    requires raw < LUT_LEN && c.lutBase + LUT_LEN <= U32
    ensures ShiftIn(ShiftIn(0, c.lutBase / LUT_LEN), raw) == c.lutBase + raw <==> c.lutBase % LUT_LEN == 0
  {
    assert ShiftIn(0, c.lutBase / LUT_LEN) == c.lutBase / LUT_LEN;
    assert ShiftIn(c.lutBase / LUT_LEN, raw) == c.lutBase / LUT_LEN * LUT_LEN + raw;
  }

  lemma AddrTickKeepsInv(c: Config, s: State)
    requires Wf(c) && Inv(c, s) && Enabled(s, AddrTick)
    ensures Inv(c, AddrExec(s))
  {
    if s.a.pc == InPins {
      PointerFormula(c, s.lines.addr);
      assert s.a.isr == ShiftIn(0, c.lutBase / LUT_LEN);
    }
  }

  lemma ReadTickKeepsDiscipline(c: Config, s: State)
    requires Wf(c) && Inv(c, s) && Enabled(s, ReadTick)
    ensures DriveDiscipline(ReadExec(s).r)
  {
    assert (U32 - 1) % 256 == 255;
  }

  /** The first half of cart_read, up to and including the pull. */
  lemma ReadTickBeforeOut(c: Config, s: State)
    requires Wf(c) && Inv(c, s) && Enabled(s, ReadTick)
    requires s.r.pc in {WaitSltsl, JmpRd, SetDirLow, MovOsrOnes, OutDirsOn, PullByte}
    ensures Inv(c, ReadExec(s))
  {
    ReadTickKeepsDiscipline(c, s);
    var t := ReadExec(s);
    assert InFlight(s) == InFlight(t) + (if s.r.pc == PullByte then 1 else 0);
    assert LiveInv(c, t);
  }

  lemma ReadTickFromOut(c: Config, s: State)
    requires Wf(c) && Inv(c, s) && Enabled(s, ReadTick)
    requires s.r.pc in {OutPins, Nop, WaitRd, MovOsrZero, OutDirsOff, SetDirHigh}
    ensures Inv(c, ReadExec(s))
  {
    ReadTickKeepsDiscipline(c, s);
    assert LiveInv(c, ReadExec(s));
  }

  lemma ReadTickKeepsInv(c: Config, s: State)
    requires Wf(c) && Inv(c, s) && Enabled(s, ReadTick)
    ensures Inv(c, ReadExec(s))
  {
    if s.r.pc in {OutPins, Nop, WaitRd, MovOsrZero, OutDirsOff, SetDirHigh} {
      ReadTickFromOut(c, s);
    } else {
      ReadTickBeforeOut(c, s);
    }
  }

  lemma DmaKeepsInv(c: Config, s: State, step: Step)
    requires Wf(c) && Inv(c, s) && Enabled(s, step)
    requires step.DmaALoad? || step.DmaATrigger? || step.DmaBFetch? || step.DmaBDeliver?
    ensures Inv(c, DmaExec(c, s, step))
  {
  }

  lemma LinesKeepInv(c: Config, s: State, l: Lines)
    requires Wf(c) && Inv(c, s) && Enabled(s, LinesChange(l))
    ensures Inv(c, LinesExec(s, l))
  {
    var t := LinesExec(s, l);
    if Reading(s.lines) && !Reading(l) {
      assert ServedRight(c, t.log[|s.log|]);
    }
  }

  lemma StepKeepsInv(c: Config, s: State, step: Step)
    requires Wf(c) && Inv(c, s) && Enabled(s, step)
    ensures Inv(c, Apply(c, s, step))
  {
    match step
    case AddrTick => AddrTickKeepsInv(c, s);
    case ReadTick => ReadTickKeepsInv(c, s);
    case LinesChange(l) => LinesKeepInv(c, s, l);
    case ArmRead =>
    case ArmAddr =>
    case ResetPipeline =>
    case DisableDrive =>
    case _ => DmaKeepsInv(c, s, step);
  }

  lemma {:induction false} RunKeepsInv(c: Config, states: seq<State>, steps: seq<Step>, n: nat)
    requires Wf(c) && IsRun(c, states, steps) && n < |states|
    ensures Inv(c, states[n])
  {
    if n == 0 {
      assert Init(c, states[0]);
    } else {
      RunKeepsInv(c, states, steps, n - 1);
      StepKeepsInv(c, states[n - 1], steps[n - 1]);
    }
  }

  // ----- refinement of a plain read-only memory -----

  ghost predicate Holds(c: Config, image: seq<Byte>) {
    Wf(c) && forall raw :: 0 <= raw < LUT_LEN ==> c.lut[raw] == RomByte(image, raw)
  }

  /** Main result: in every run, every finished read of any address latched the byte of the
    * plain ROM at that address, fetched during that very read. */
  lemma RomRefinement(c: Config, image: seq<Byte>, states: seq<State>, steps: seq<Step>, n: nat, i: nat)
    requires Holds(c, image) && IsRun(c, states, steps)
    requires n < |states| && i < |states[n].log|
    ensures var e := states[n].log[i];
            e.latched == if e.serving then Some(Item(RomByte(image, e.addr), e.cycle)) else None
  {
    RunKeepsInv(c, states, steps, n);
    assert ServedRight(c, states[n].log[i]);
  }

  // ----- ages of the things in the pipeline -----

  /** The output latch is of the current cycle exactly from `out pins` on, and no two
    * finished reads share a cycle number. */
  ghost predicate Ages(s: State) {
    && s.r.pins.stamp <= s.cycle
    && (s.stage == Configured ==> s.r.pins.stamp < s.cycle)
    && (ReadRunning(s) ==>
          && (s.r.pc in {Nop, WaitRd, MovOsrZero, OutDirsOff, SetDirHigh} ==> s.r.pins.stamp == s.cycle)
          && (s.r.pc in {SetDirLow, MovOsrOnes, OutDirsOn, PullByte, OutPins} ==> s.r.pins.stamp < s.cycle)
          && (Reading(s.lines) && s.r.pc in {WaitSltsl, JmpRd} ==> s.r.pins.stamp < s.cycle))
    && (forall i :: 0 <= i < |s.log| ==> s.log[i].cycle <= s.cycle && (Reading(s.lines) ==> s.log[i].cycle < s.cycle))
    && (forall i, j :: 0 <= i < j < |s.log| ==> s.log[i].cycle < s.log[j].cycle)
  }

  lemma ReadTickKeepsAges(c: Config, s: State)
    requires Wf(c) && Inv(c, s) && Ages(s) && Enabled(s, ReadTick)
    ensures Ages(ReadExec(s))
  {
  }

  lemma LinesKeepAges(c: Config, s: State, l: Lines)
    requires Wf(c) && Inv(c, s) && Ages(s) && Enabled(s, LinesChange(l))
    ensures Ages(LinesExec(s, l)) && s.cycle <= LinesExec(s, l).cycle
  {
  }

  lemma StepKeepsAges(c: Config, s: State, step: Step)
    requires Wf(c) && Inv(c, s) && Ages(s) && Enabled(s, step)
    ensures Ages(Apply(c, s, step))
    ensures s.cycle <= Apply(c, s, step).cycle
    ensures step == ResetPipeline ==> s.cycle < Apply(c, s, step).cycle
  {
    match step
    case ReadTick => ReadTickKeepsAges(c, s);
    case LinesChange(l) => LinesKeepAges(c, s, l);
    case _ =>
  }

  lemma {:induction false} RunKeepsAges(c: Config, states: seq<State>, steps: seq<Step>, n: nat)
    requires Wf(c) && IsRun(c, states, steps) && n < |states|
    ensures Ages(states[n])
  {
    if n > 0 {
      RunKeepsAges(c, states, steps, n - 1);
      RunKeepsInv(c, states, steps, n - 1);
      StepKeepsAges(c, states[n - 1], steps[n - 1]);
    }
  }

  lemma {:induction false} CyclesGrow(c: Config, states: seq<State>, steps: seq<Step>, m: nat, n: nat)
    requires Wf(c) && IsRun(c, states, steps) && m <= n < |states|
    ensures states[m].cycle <= states[n].cycle
    decreases n
  {
    if m < n {
      CyclesGrow(c, states, steps, m, n - 1);
      RunKeepsAges(c, states, steps, n - 1);
      RunKeepsInv(c, states, steps, n - 1);
      StepKeepsAges(c, states[n - 1], steps[n - 1]);
    }
  }

  /** Two finished reads are served from two different cycles, so no byte answers two reads. */
  lemma NoByteServesTwoReads(c: Config, states: seq<State>, steps: seq<Step>, n: nat, i: nat, j: nat)
    requires Wf(c) && IsRun(c, states, steps)
    requires n < |states| && i < j < |states[n].log|
    requires states[n].log[i].latched.Some? && states[n].log[j].latched.Some?
    ensures states[n].log[i].latched.value.stamp < states[n].log[j].latched.value.stamp
  {
    RunKeepsInv(c, states, steps, n);
    RunKeepsAges(c, states, steps, n);
    assert ServedRight(c, states[n].log[i]) && ServedRight(c, states[n].log[j]);
  }

  /** Whenever the pads drive the bus, they carry this cycle's byte if and only if cart_read
    * is past `out pins`: before it, they drive what the latch held from an earlier cycle. */
  lemma DrivenByteIsCurrent(c: Config, image: seq<Byte>, states: seq<State>, steps: seq<Step>, n: nat)
    requires Holds(c, image) && IsRun(c, states, steps)
    requires n < |states| && OnBus(states[n]).Some?
    ensures var s := states[n];
            && (OnBus(s).value.stamp == s.cycle <==> s.r.pc !in {PullByte, OutPins})
            && (Reading(s.lines) && s.r.pc !in {PullByte, OutPins} ==>
                  OnBus(s) == Some(Item(RomByte(image, s.lines.addr), s.cycle)))
  {
    RunKeepsInv(c, states, steps, n);
    RunKeepsAges(c, states, steps, n);
  }

  /** The responder puts a new byte into the output latch at step k. */
  predicate OutPinsAt(states: seq<State>, steps: seq<Step>, k: nat)
    requires k < |states| && k < |steps|
  {
    steps[k].ReadTick? && states[k].r.pc == OutPins
  }

  predicate OutPinsBetween(states: seq<State>, steps: seq<Step>, m: nat, n: nat)
    requires n < |states| == |steps| + 1
  {
    exists k :: m < k < n && OutPinsAt(states, steps, k)
  }

  /** Only `out pins` changes the latch, and what it puts there is of the present cycle. */
  lemma LatchStep(c: Config, s: State, step: Step)
    requires Wf(c) && Inv(c, s) && Enabled(s, step)
    ensures Apply(c, s, step).r.pins ==
      if step.ReadTick? && s.r.pc == OutPins then Answer(c, s) else s.r.pins
  {
  }

  /** What `out pins` puts there after a reset is newer than the reset. */
  lemma AnswerIsNew(c: Config, states: seq<State>, steps: seq<Step>, m: nat, k: nat)
    requires Wf(c) && IsRun(c, states, steps) && m < k < |states| && steps[m] == ResetPipeline
    ensures Answer(c, states[k]).stamp > states[m].cycle
  {
    RunKeepsInv(c, states, steps, m);
    RunKeepsAges(c, states, steps, m);
    StepKeepsAges(c, states[m], steps[m]);
    CyclesGrow(c, states, steps, m + 1, k);
  }

  lemma ResetKeepsLatch(c: Config, states: seq<State>, steps: seq<Step>, m: nat)
    requires Wf(c) && IsRun(c, states, steps) && m < |steps| && steps[m] == ResetPipeline
    ensures states[m + 1].r.pins == states[m].r.pins && states[m].r.pins.stamp <= states[m].cycle
  {
    RunKeepsInv(c, states, steps, m);
    RunKeepsAges(c, states, steps, m);
    LatchStep(c, states[m], steps[m]);
  }

  lemma LatchAt(c: Config, states: seq<State>, steps: seq<Step>, k: nat)
    requires Wf(c) && IsRun(c, states, steps) && k < |steps|
    ensures states[k + 1].r.pins == if OutPinsAt(states, steps, k) then Answer(c, states[k]) else states[k].r.pins
  {
    RunKeepsInv(c, states, steps, k);
    LatchStep(c, states[k], steps[k]);
  }

  /** The same, step by step. */
  predicate OutPinsSince(states: seq<State>, steps: seq<Step>, m: nat, n: nat)
    requires n < |states| == |steps| + 1
  {
    m + 1 < n && (OutPinsAt(states, steps, n - 1) || OutPinsSince(states, steps, m, n - 1))
  }

  lemma {:induction false} SinceMeansBetween(states: seq<State>, steps: seq<Step>, m: nat, n: nat)
    requires m < n < |states| == |steps| + 1
    ensures OutPinsSince(states, steps, m, n) <==> OutPinsBetween(states, steps, m, n)
  {
    if m + 1 < n { SinceMeansBetween(states, steps, m, n - 1); }
  }

  /** From state m + 1 on the latch changes by `out pins` only, to what is newer than cycle. */
  ghost predicate LatchRuns(c: Config, states: seq<State>, steps: seq<Step>, m: nat, cycle: nat)
    requires Wf(c) && |states| == |steps| + 1
  {
    forall k :: m < k < |steps| ==>
      && Answer(c, states[k]).stamp > cycle
      && states[k + 1].r.pins == if OutPinsAt(states, steps, k) then Answer(c, states[k]) else states[k].r.pins
  }

  lemma ResetLatchRuns(c: Config, states: seq<State>, steps: seq<Step>, m: nat)
    requires Wf(c) && IsRun(c, states, steps) && m < |steps| && steps[m] == ResetPipeline
    ensures LatchRuns(c, states, steps, m, states[m].cycle)
  {
    forall k | m < k < |steps|
      ensures Answer(c, states[k]).stamp > states[m].cycle
      ensures states[k + 1].r.pins == if OutPinsAt(states, steps, k) then Answer(c, states[k]) else states[k].r.pins
    {
      LatchAt(c, states, steps, k);
      AnswerIsNew(c, states, steps, m, k);
    }
  }

  lemma {:induction false} LatchSince(c: Config, states: seq<State>, steps: seq<Step>, m: nat, n: nat, cycle: nat)
    requires Wf(c) && m < n < |states| == |steps| + 1 && LatchRuns(c, states, steps, m, cycle)
    requires states[m + 1].r.pins.stamp <= cycle
    ensures states[n].r.pins.stamp <= cycle <==> !OutPinsSince(states, steps, m, n)
    ensures !OutPinsSince(states, steps, m, n) ==> states[n].r.pins == states[m + 1].r.pins
    decreases n
  {
    if m + 1 < n {
      LatchSince(c, states, steps, m, n - 1, cycle);
      var k := n - 1;
      assert states[k + 1].r.pins == if OutPinsAt(states, steps, k) then Answer(c, states[k]) else states[k].r.pins;
    }
  }

  lemma LatchAfterReset(c: Config, states: seq<State>, steps: seq<Step>, m: nat, n: nat)
    requires Wf(c) && IsRun(c, states, steps) && m < n < |states| && steps[m] == ResetPipeline
    ensures states[n].r.pins.stamp <= states[m].cycle <==> !OutPinsBetween(states, steps, m, n)
    ensures !OutPinsBetween(states, steps, m, n) ==> states[n].r.pins == states[m].r.pins
  {
    ResetLatchRuns(c, states, steps, m);
    ResetKeepsLatch(c, states, steps, m);
    LatchSince(c, states, steps, m, n, states[m].cycle);
    SinceMeansBetween(states, steps, m, n);
  }

  /** After a pipeline reset, nothing pushed or fetched before it is in flight. What the pads drive
    * is older than the reset if and only if no `out pins` has come since: it is then the byte that
    * the latch held at the reset. */
  lemma NothingSurvivesReset(c: Config, states: seq<State>, steps: seq<Step>, m: nat, n: nat)
    requires Wf(c) && IsRun(c, states, steps)
    requires m < n < |states| && steps[m] == ResetPipeline
    ensures ReadRunning(states[n]) ==>
            var s := states[n]; var before := states[m].cycle;
            && (forall i :: 0 <= i < |s.a.rx| ==> s.a.rx[i].stamp > before)
            && (forall i :: 0 <= i < |s.r.tx| ==> s.r.tx[i].stamp > before)
            && (s.dma.aLatch.Some? ==> s.dma.aLatch.value.stamp > before)
            && (s.dma.bBusy ==> s.dma.bReadAddr.stamp > before)
            && (s.dma.bLatch.Some? ==> s.dma.bLatch.value.stamp > before)
    ensures OnBus(states[n]).Some? ==>
            && (OnBus(states[n]).value.stamp <= states[m].cycle <==> !OutPinsBetween(states, steps, m, n))
            && (!OutPinsBetween(states, steps, m, n) ==> OnBus(states[n]) == Some(states[m].r.pins))
  {
    RunKeepsInv(c, states, steps, m);
    RunKeepsAges(c, states, steps, m);
    StepKeepsAges(c, states[m], steps[m]);
    CyclesGrow(c, states, steps, m + 1, n);
    RunKeepsInv(c, states, steps, n);
    LatchAfterReset(c, states, steps, m, n);
  }

  // ----- a run that drives a byte of before the reset -----

  /** A run so far. */
  datatype Run = Run(states: seq<State>, steps: seq<Step>)

  ghost predicate Good(c: Config, h: Run)
    requires Wf(c)
  {
    IsRun(c, h.states, h.steps)
  }

  function Last(h: Run): State
    requires |h.states| == |h.steps| + 1
  {
    h.states[|h.steps|]
  }

  predicate Extends(h: Run, g: Run) { g.states <= h.states && g.steps <= h.steps }

  /** The run, extended by one enabled step. */
  function OneMore(c: Config, h: Run, step: Step): (g: Run)
    requires Wf(c) && Good(c, h) && Enabled(Last(h), step)
    ensures Good(c, g) && Extends(g, h)
    ensures g.steps == h.steps + [step] && Last(g) == Apply(c, Last(h), step)
  {
    Run(h.states + [Apply(c, Last(h), step)], h.steps + [step])
  }

  predicate IdleBus(s: State) { !Reading(s.lines) && s.lines.rd }

  /** Armed and waiting for a read. */
  predicate Ready(s: State) {
    && s.stage == Armed && s.pioOwnsPins && IdleBus(s)
    && s.a.pc == AddrWaitSltsl && s.r.pc == WaitSltsl
    && s.a.rx == [] && s.dma.aLatch.None? && !s.dma.bBusy && s.dma.bLatch.None? && s.r.tx == []
  }

  predicate InReadOf(s: State, addr: nat) {
    s.stage == Armed && s.pioOwnsPins && s.lines == Lines(addr, false, false)
  }

  lemma ArmUp(c: Config, s0: State) returns (h: Run)
    requires Wf(c) && Init(c, s0) && IdleBus(s0)
    ensures Good(c, h) && h.states[0] == s0 && Ready(Last(h)) && Last(h).log == []
  {
    h := OneMore(c, Run([s0], []), ArmRead);
    h := OneMore(c, h, ArmAddr);
    h := OneMore(c, h, AddrTick);
    h := OneMore(c, h, AddrTick);
  }

  lemma SelectSlot(c: Config, h: Run, addr: nat) returns (g: Run)
    requires Wf(c) && Good(c, h) && Ready(Last(h)) && addr < LUT_LEN
    ensures Good(c, g) && Extends(g, h) && InReadOf(Last(g), addr) && Last(g).log == Last(h).log
    ensures var s, t := Last(h), Last(g); t.a == s.a && t.r.pc == s.r.pc && t.dma == s.dma && t.r.tx == s.r.tx
  {
    g := OneMore(c, h, LinesChange(Lines(addr, false, false)));
  }

  lemma SeeRead(c: Config, h: Run, addr: nat) returns (g: Run)
    requires Wf(c) && Good(c, h) && InReadOf(Last(h), addr) && Last(h).a.pc == AddrWaitSltsl && Last(h).a.rx == []
    ensures Good(c, g) && Extends(g, h) && InReadOf(Last(g), addr) && Last(g).log == Last(h).log
    ensures var s, t := Last(h), Last(g);
            t.a.pc == InX && t.a.rx == [] && t.r.pc == s.r.pc && t.dma == s.dma && t.r.tx == s.r.tx
  {
    g := OneMore(c, h, AddrTick);
    g := OneMore(c, g, AddrTick);
  }

  lemma PushPointer(c: Config, h: Run, addr: nat) returns (g: Run)
    requires Wf(c) && Good(c, h) && Ready(Last(h)) && addr < LUT_LEN
    ensures Good(c, g) && Extends(g, h) && InReadOf(Last(g), addr) && Last(g).log == Last(h).log
    ensures var s := Last(g);
            && s.a.pc == AddrWaitRd && s.r.pc == WaitSltsl && |s.a.rx| == 1
            && s.dma == Last(h).dma && s.r.tx == []
  {
    g := SelectSlot(c, h, addr);
    g := SeeRead(c, g, addr);
    g := OneMore(c, g, AddrTick);
    g := OneMore(c, g, AddrTick);
  }

  lemma MoveByte(c: Config, h: Run, addr: nat) returns (g: Run)
    requires Wf(c) && Good(c, h) && InReadOf(Last(h), addr)
    requires var s := Last(h);
             && s.a.pc == AddrWaitRd && s.r.pc == WaitSltsl && |s.a.rx| == 1
             && s.dma.aLatch.None? && !s.dma.bBusy && s.dma.bLatch.None? && s.r.tx == []
    ensures Good(c, g) && Extends(g, h) && InReadOf(Last(g), addr) && Last(g).log == Last(h).log
    ensures var s := Last(g); s.a.pc == AddrWaitRd && s.r.pc == WaitSltsl && s.r.tx != []
  {
    g := OneMore(c, h, DmaALoad);
    g := OneMore(c, g, DmaATrigger);
    g := OneMore(c, g, DmaBFetch(0));
    g := OneMore(c, g, DmaBDeliver);
  }

  lemma PointShifterOut(c: Config, h: Run, addr: nat) returns (g: Run)
    requires Wf(c) && Good(c, h) && InReadOf(Last(h), addr) && Last(h).r.pc == WaitSltsl
    ensures Good(c, g) && Extends(g, h) && InReadOf(Last(g), addr) && Last(g).log == Last(h).log
    ensures Last(g).r.pc == MovOsrOnes && Last(g).r.tx == Last(h).r.tx && Last(g).a == Last(h).a
    ensures Last(g).r.pins == Last(h).r.pins && !Last(g).r.lvcHigh
  {
    g := OneMore(c, h, ReadTick);
    g := OneMore(c, g, ReadTick);
    g := OneMore(c, g, ReadTick);
  }

  lemma TurnAround(c: Config, h: Run, addr: nat) returns (g: Run)
    requires Wf(c) && Good(c, h) && InReadOf(Last(h), addr) && Last(h).r.pc == WaitSltsl
    ensures Good(c, g) && Extends(g, h) && InReadOf(Last(g), addr) && Last(g).log == Last(h).log
    ensures Last(g).r.pc == PullByte && Last(g).r.tx == Last(h).r.tx && Last(g).a == Last(h).a
    ensures Last(g).r.pins == Last(h).r.pins && OnBus(Last(g)) == Some(Last(h).r.pins)
  {
    g := PointShifterOut(c, h, addr);
    g := OneMore(c, g, ReadTick);
    assert Last(g).r.osr.value == U32 - 1;
    g := OneMore(c, g, ReadTick);
  }

  lemma DriveByte(c: Config, h: Run, addr: nat) returns (g: Run)
    requires Wf(c) && Good(c, h) && InReadOf(Last(h), addr) && Last(h).r.pc == PullByte && Last(h).r.tx != []
    ensures Good(c, g) && Extends(g, h) && InReadOf(Last(g), addr) && Last(g).log == Last(h).log
    ensures Last(g).r.pc == WaitRd && Last(g).a == Last(h).a
  {
    g := OneMore(c, h, ReadTick);
    g := OneMore(c, g, ReadTick);
    g := OneMore(c, g, ReadTick);
  }

  lemma EndRead(c: Config, h: Run, addr: nat) returns (g: Run)
    requires Wf(c) && Good(c, h) && InReadOf(Last(h), addr) && Last(h).r.pc == WaitRd && Last(h).a.pc == AddrWaitRd
    requires addr < LUT_LEN
    ensures Good(c, g) && Extends(g, h) && IdleBus(Last(g)) && Last(g).stage == Armed && Last(g).pioOwnsPins
    ensures Last(g).r.pins == Last(h).r.pins && |Last(g).log| == |Last(h).log| + 1
    ensures Last(g).log[|Last(h).log|] == Served(addr, OnBus(Last(h)), Last(h).cycle, true)
  {
    g := OneMore(c, h, LinesChange(Lines(addr, true, true)));
  }

  /** A whole read, from arming to the rising edge of /RD. */
  lemma ServeOne(c: Config, s0: State, addr: nat) returns (h: Run)
    requires Wf(c) && Init(c, s0) && IdleBus(s0) && addr < LUT_LEN
    ensures Good(c, h) && h.states[0] == s0 && IdleBus(Last(h)) && Last(h).stage == Armed && Last(h).pioOwnsPins
    ensures Last(h).log == [Served(addr, Some(Last(h).r.pins), Last(h).r.pins.stamp, true)]
    ensures Last(h).r.pins.value == c.lut[addr]
  {
    h := ArmUp(c, s0);
    h := PushPointer(c, h, addr);
    h := MoveByte(c, h, addr);
    h := TurnAround(c, h, addr);
    h := DriveByte(c, h, addr);
    RunKeepsInv(c, h.states, h.steps, |h.steps|);
    assert Last(h).r.pins == Answer(c, Last(h));
    h := EndRead(c, h, addr);
  }

  lemma ResetAndReadAgain(c: Config, h: Run, addr: nat) returns (g: Run)
    requires Wf(c) && Good(c, h) && IdleBus(Last(h)) && Last(h).stage == Armed && Last(h).pioOwnsPins && addr < LUT_LEN
    ensures Good(c, g) && Extends(g, h) && |g.steps| == |h.steps| + 4 && g.steps[|h.steps|] == ResetPipeline
    ensures InReadOf(Last(g), addr) && Last(g).r == FreshRead(Last(h).r)
  {
    g := OneMore(c, h, ResetPipeline);
    g := OneMore(c, g, AddrTick);
    g := OneMore(c, g, AddrTick);
    g := OneMore(c, g, LinesChange(Lines(addr, false, false)));
  }

  /** A cartridge serves a read of one address; the pipeline is reset; the next read, of any other
    * address, turns the pins into outputs while the latch still holds the first read's byte. */
  lemma StaleLatchIsDrivenBeforeOutPins(c: Config, s0: State, addr: nat, addr': nat)
    returns (states: seq<State>, steps: seq<Step>, m: nat)
    requires Wf(c) && Init(c, s0) && IdleBus(s0) && addr < LUT_LEN && addr' < LUT_LEN
    ensures IsRun(c, states, steps) && states[0] == s0 && m < |steps| && steps[m] == ResetPipeline
    ensures |states[m].log| == 1 && states[m].log[0].addr == addr && states[m].log[0].latched.Some?
    ensures var s := states[|steps|];
            && s.lines == Lines(addr', false, false)
            && OnBus(s) == states[m].log[0].latched && OnBus(s).value.value == c.lut[addr]
  {
    var h := ServeOne(c, s0, addr);
    m := |h.steps|;
    var served := Last(h);
    h := ResetAndReadAgain(c, h, addr');
    assert h.states[m] == served;
    var g := TurnAround(c, h, addr');
    assert g.states[m] == served;
    states, steps := g.states, g.steps;
  }

  // ----- lock-step and drive safety -----

  /** Since the last reset, pointers pushed are bytes pulled plus items in flight, of which there
    * is at most one; no trigger of channel B was ever lost, and the next cannot be. */
  lemma LockStep(c: Config, states: seq<State>, steps: seq<Step>, n: nat)
    requires Wf(c) && IsRun(c, states, steps)
    requires n < |states| && ReadRunning(states[n])
    ensures states[n].pushed == states[n].pulled + InFlight(states[n])
    ensures InFlight(states[n]) <= 1
    ensures states[n].dma.lostTriggers == 0
    ensures Enabled(states[n], DmaATrigger) ==> !states[n].dma.bBusy
  {
    RunKeepsInv(c, states, steps, n);
  }

  /** D0-D7 are outputs only while the level shifter points away from the cartridge, at every
    * instruction boundary of every run. */
  lemma DriveSafety(c: Config, states: seq<State>, steps: seq<Step>, n: nat)
    requires Wf(c) && IsRun(c, states, steps) && n < |states|
    ensures PadDirs(states[n]) != 0 ==> !PadLvcHigh(states[n])
    ensures PadDirs(states[n]) in {0, 255}
  {
    RunKeepsInv(c, states, steps, n);
  }

  /** Disabling drive is one-way: whatever follows, even a pipeline reset that restarts both
    * machines, the pads never drive again. */
  lemma {:induction false} DisableIsForGood(c: Config, states: seq<State>, steps: seq<Step>, m: nat, n: nat)
    requires Wf(c) && IsRun(c, states, steps)
    requires m < n < |states| && steps[m] == DisableDrive
    ensures !states[n].pioOwnsPins && PadDirs(states[n]) == 0 && OnBus(states[n]) == None
    decreases n
  {
    if m + 1 < n {
      DisableIsForGood(c, states, steps, m, n - 1);
    }
    assert states[n] == Apply(c, states[n - 1], steps[n - 1]);
  }

  // ----- progress -----

  predicate IsDevice(step: Step) {
    step.AddrTick? || step.ReadTick? || step.DmaALoad? || step.DmaATrigger? || step.DmaBFetch? || step.DmaBDeliver?
  }

  function AddrLeft(pc: AddrPc): nat {
    match pc
    case PullBlock => 6 case MovX => 5 case AddrWaitSltsl => 4 case AddrJmp => 3
    case InX => 2 case InPins => 1 case AddrWaitRd => 0
  }

  function ReadLeft(pc: ReadPc): nat {
    match pc
    case WaitSltsl => 8 case JmpRd => 7 case SetDirLow => 6 case MovOsrOnes => 5 case OutDirsOn => 4
    case PullByte => 3 case OutPins => 2 case Nop => 1 case _ => 0
  }

  /** Device steps still to be taken before the Z80 may end the read. */
  function WorkLeft(s: State): nat {
    5 * AddrLeft(s.a.pc) + ReadLeft(s.r.pc)
    + 4 * |s.a.rx| + (if s.dma.aLatch.Some? then 3 else 0)
    + (if s.dma.bLatch.Some? then 1 else if s.dma.bBusy then 2 else 0)
  }

  /** During a read every device step makes progress, whichever is taken. */
  lemma ReadMakesProgress(c: Config, s: State, step: Step)
    requires Wf(c) && Inv(c, s) && s.stage == Armed && Reading(s.lines)
    requires IsDevice(step) && Enabled(s, step)
    ensures var t := Apply(c, s, step);
            WorkLeft(t) < WorkLeft(s) && t.lines == s.lines && t.stage == Armed
  {
  }

  /** No deadlock: unless the read may already end, some device step is enabled. */
  lemma ReadIsNeverStuck(c: Config, s: State)
    requires Wf(c) && Inv(c, s) && s.stage == Armed && Reading(s.lines)
    requires !Enabled(s, LinesChange(Lines(s.lines.addr, true, true)))
    ensures exists step :: IsDevice(step) && Enabled(s, step)
  {
    if s.a.pc != AddrWaitRd {
      assert InFlight(s) == 0;
      assert Enabled(s, AddrTick) && IsDevice(AddrTick);
    } else if s.r.pc != WaitRd && s.r.pc != PullByte {
      assert Enabled(s, ReadTick) && IsDevice(ReadTick);
    } else if s.r.tx != [] {
      assert Enabled(s, ReadTick) && IsDevice(ReadTick);
    } else if s.a.rx != [] {
      assert Enabled(s, DmaALoad) && IsDevice(DmaALoad);
    } else if s.dma.aLatch.Some? {
      assert Enabled(s, DmaATrigger) && IsDevice(DmaATrigger);
    } else if s.dma.bLatch.Some? {
      assert Enabled(s, DmaBDeliver) && IsDevice(DmaBDeliver);
    } else {
      assert Enabled(s, DmaBFetch(0)) && IsDevice(DmaBFetch(0));
    }
  }

  ghost predicate InRead(c: Config, s: State)
    requires Wf(c)
  {
    Inv(c, s) && s.stage == Armed && Reading(s.lines)
  }

  ghost predicate DeviceRun(c: Config, states: seq<State>, steps: seq<Step>)
    requires Wf(c)
  {
    && |states| == |steps| + 1
    && forall i :: 0 <= i < |steps| ==>
         IsDevice(steps[i]) && Enabled(states[i], steps[i]) && states[i + 1] == Apply(c, states[i], steps[i])
  }

  lemma {:induction false} DeviceRunStaysInRead(c: Config, states: seq<State>, steps: seq<Step>, n: nat)
    requires Wf(c) && DeviceRun(c, states, steps) && InRead(c, states[0]) && n <= |steps|
    ensures InRead(c, states[n]) && states[n].lines == states[0].lines
    ensures n + WorkLeft(states[n]) <= WorkLeft(states[0])
  {
    if n > 0 {
      DeviceRunStaysInRead(c, states, steps, n - 1);
      ReadMakesProgress(c, states[n - 1], steps[n - 1]);
      StepKeepsInv(c, states[n - 1], steps[n - 1]);
    }
  }

  /** Hence, however the device steps of a read are scheduled, there are at most 38 of them, and
    * when none is left the Z80 may end the read. */
  lemma DeviceStepsOfOneRead(c: Config, states: seq<State>, steps: seq<Step>)
    requires Wf(c) && DeviceRun(c, states, steps) && InRead(c, states[0])
    ensures |steps| <= WorkLeft(states[0]) <= 38
    ensures var last := states[|steps|];
            (forall step :: IsDevice(step) ==> !Enabled(last, step)) ==>
              Enabled(last, LinesChange(Lines(last.lines.addr, true, true)))
  {
    DeviceRunStaysInRead(c, states, steps, |steps|);
    var last := states[|steps|];
    if !Enabled(last, LinesChange(Lines(last.lines.addr, true, true))) {
      ReadIsNeverStuck(c, last);
    }
  }
}
