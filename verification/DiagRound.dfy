/** The boot-diagnostic round of boot_diag.c with everything that runs beside it: core 0 ticks and may
  * be told to reset, core 1 drains three rings and a log, and the DMA writes. */
module DiagRound {
  import opened Words
  import opened BootDiag
  import BI = BusIntegrity
  import BD = BootDetect
  import BC = BootCapture
  import CD = CaptureDrain
  import CR = CaptureRing
  import TC = TxnCapture

  // ----- the state machine -----

  /** What a finished pass captured, what the cart-read log held and how much of it was handed over,
    * and the words and reads that the drains handed to the analysers. */
  datatype Pass = Pass(
    mem: CR.History, io: CR.History, txn: CR.History, held: seq<Word>, logRd: nat,
    words: seq<BC.Tagged>, got: seq<BI.Read>)

  /** draining: core 1 is inside boot_diag_core1_drain_step. spoiled: a RESET command or a re-armed log
    * fell into the round. frozen: the words that the detector had got when the result was frozen. */
  datatype Sys = Sys(
    core: Core, draining: bool, cap: CD.CapState, txn: TC.TxnState,
    passes: seq<Pass>, ends: seq<PassEnd>, spoiled: bool, result: Result, frozen: seq<BC.Tagged>)

  /** Command: one of the three parts of the RESET command; the first also comes alone, from ALOG RESET
    * and from the button combo. */
  datatype Step =
    | StartRequest | Tick(now: Word, snap: Probe) | Enter | Leave
    | Cap(cap: CD.CapStep) | Txn(txn: TC.TxnStep) | Command(part: CD.CapStep)

  predicate Init(s: Sys) {
    && CD.FreshCapture(s.cap) && TC.FreshTxn(s.txn)
    && s == Sys(Core(Idle, false, false, 0, 0), false, s.cap, s.txn, [], [], false, s.result, [])
  }

  predicate InPass(p: Phase) { p == Capturing || p == Settle }

  predicate NoDrain(s: Sys) { CD.Resting(s.cap) && s.txn.ring.local.NoDrain? }

  predicate CapWrite(step: CD.CapStep) { step.WriteLog? || (step.OnRing? && step.step.Write?) }

  predicate CapDrain(step: CD.CapStep) { step.OnRing? || step.BeginLog? || step.TakeLog? || step.EndLog? }

  predicate TxnWrite(step: TC.TxnStep) { step.OnRing? && step.step.Write? }

  predicate TxnDrain(step: TC.TxnStep) { step.OnRing? && !step.step.Reset? }

  /** A drain that was running when the window closed has returned by the time the settle deadline
    * is noticed; otherwise any step may come at any time. */
  predicate Enabled(s: Sys, step: Step) {
    match step
    case StartRequest => true
    case Tick(now, _) =>
      && (s.core.phase == Settle && Reached(now, s.core.deadline) ==> !s.draining)
      && TC.CanDo(s.txn, TC.OnRing(CR.Reset))
    case Enter => s.core.phase == Capturing && !s.draining
    case Leave => s.draining && NoDrain(s)
    case Cap(cap) => CD.CanDo(s.cap, cap) && (CapWrite(cap) || (s.draining && CapDrain(cap)))
    case Txn(txn) => TC.CanDo(s.txn, txn) && (TxnWrite(txn) || (s.draining && TxnDrain(txn)))
    case Command(part) => part.ReArmLog? || part.ResetDetector? || part.ResetCapture?
  }

  function PassOf(s: Sys): Pass {
    Pass(s.cap.mem.hist, s.cap.io.hist, s.txn.ring.hist, CD.Held(s.cap.log), s.cap.log.rd,
         if s.cap.capFrom <= |s.cap.all| then s.cap.all[s.cap.capFrom..] else [],
         if s.txn.ringFrom <= |s.txn.got| then s.txn.got[s.txn.ringFrom..] else [])
  }

  /** What the detector has been fed since its last reset. */
  function WordsSince(cap: CD.CapState): seq<BC.Tagged> {
    if cap.detFrom <= |cap.all| then cap.all[cap.detFrom..] else []
  }

  /** The first round claims the DMA channels. */
  function Claimed(s: Sys): Sys {
    if s.core.inited then s
    else s.(core := s.core.(inited := true), cap := CD.Do(s.cap, CD.Claim), txn := TC.Do(s.txn, TC.Claim))
  }

  function RoundBegun(s: Sys): Sys {
    var t := Claimed(s);
    t.(core := t.core.(request := false, pass := 0, phase := PassBegin),
       cap := CD.Do(t.cap, CD.ResetDetector), txn := TC.Do(t.txn, TC.ResetTally),
       passes := [], ends := [], spoiled := false)
  }

  function PassBegun(s: Sys, now: Word): Sys
    requires TC.CanDo(s.txn, TC.OnRing(CR.Reset))
  {
    s.(core := s.core.(deadline := Wrap32(now + WINDOW_MS), phase := Capturing),
       cap := CD.Do(s.cap, CD.ResetCapture), txn := TC.Do(s.txn, TC.OnRing(CR.Reset)))
  }

  /** The capture machines and their channels stop. */
  function WindowClosed(s: Sys, now: Word): Sys {
    s.(core := s.core.(deadline := Wrap32(now + SETTLE_MS), phase := Settle),
       cap := CD.Do(s.cap, CD.Stop), txn := TC.Do(s.txn, TC.Stop))
  }

  function Counted(s: Sys, snap: Probe): Sys {
    s.(core := s.core.(pass := s.core.pass + 1), passes := s.passes + [PassOf(s)],
       ends := s.ends + [PassEnd(snap, s.txn.tally.counts.total)])
  }

  function Finished(s: Sys): Sys {
    s.(core := s.core.(phase := Done), frozen := WordsSince(s.cap),
       result := Freeze(s.txn.tally, s.cap.det, AllFlags(s.ends), s.core.pass))
  }

  /** A pass is over: its end is noted; the result is frozen if it was the last. */
  function PassEnded(s: Sys, snap: Probe): Sys {
    var t := Counted(s, snap);
    if AllSeen(s.cap.det.phaseFlags) || t.core.pass >= MAX_PASSES then Finished(t)
    else t.(core := t.core.(phase := PassBegin))
  }

  function ExecTick(s: Sys, now: Word, snap: Probe): Sys
    requires TC.CanDo(s.txn, TC.OnRing(CR.Reset))
  {
    match s.core.phase
    case PassBegin => PassBegun(s, now)
    case Capturing => if Reached(now, s.core.deadline) then WindowClosed(s, now) else s
    case Settle => if Reached(now, s.core.deadline) then PassEnded(s, snap) else s
    case _ => if s.core.request then RoundBegun(s) else s
  }

  /** The round's own statics move as `TickCore` says. */
  lemma TickMovesCore(s: Sys, now: Word, snap: Probe)
    requires TC.CanDo(s.txn, TC.OnRing(CR.Reset))
    ensures ExecTick(s, now, snap).core == TickCore(s.core, now, AllSeen(s.cap.det.phaseFlags))
  {
    match s.core.phase
    case PassBegin =>
    case Capturing =>
    case Settle =>
    case _ =>
  }

  function Exec(s: Sys, step: Step): Sys
    requires Enabled(s, step)
  {
    match step
    case StartRequest => s.(core := StartCore(s.core))
    case Tick(now, snap) => ExecTick(s, now, snap)
    case Enter => s.(draining := true)
    case Leave => s.(draining := false)
    case Cap(cap) => s.(cap := CD.Do(s.cap, cap))
    case Txn(txn) => s.(txn := TC.Do(s.txn, txn))
    case Command(part) => s.(cap := CD.Do(s.cap, part), spoiled := s.spoiled || Running(s.core.phase))
  }

  predicate Next(s: Sys, step: Step, t: Sys) { Enabled(s, step) && t == Exec(s, step) }

  // ----- the statics that the firmware updates -----

  class Round {
    const cap: CD.Capture
    const txn: TC.Reader
    var captureActive: bool
    var phase: Phase
    var request: bool
    var inited: bool
    var pass: nat
    var deadline: nat
    var anomAccum: set<nat>
    var result: Result
    var draining: bool             // core 1 is inside boot_diag_core1_drain_step
    ghost var passes: seq<Pass>
    ghost var ends: seq<PassEnd>
    ghost var spoiled: bool
    ghost var frozen: seq<BC.Tagged>

    function CoreValue(): Core
      reads this
    {
      Core(phase, request, inited, pass, deadline)
    }

    ghost function Value(): Sys
      reads this, cap, cap.det, cap.mem, cap.mem.slots, cap.io, cap.io.slots, cap.alogRaw
      reads txn, txn.bi, txn.ring, txn.ring.slots
    {
      Sys(CoreValue(), draining, cap.Value(), txn.Value(), passes, ends, spoiled, result, frozen)
    }

    /** Core 1's flag is up exactly while the window is open; the accumulated anomalies are those of
      * the finished passes. */
    ghost predicate Valid()
      reads this, cap, cap.mem, cap.io, txn, txn.ring
    {
      && cap.Valid() && txn.Valid()
      && txn.ring !in {cap.mem, cap.io} && txn.ring.slots !in {cap.mem.slots, cap.io.slots, cap.alogRaw}
      && (captureActive <==> phase == Capturing)
      && anomAccum == AllFlags(ends)
    }

    constructor (r: Result)
      ensures Valid() && Init(Value())
    {
      cap := new CD.Capture();
      txn := new TC.Reader();
      captureActive, phase, request, inited, pass, deadline := false, Idle, false, false, 0, 0;
      anomAccum, result, draining := {}, r, false;
      passes, ends, spoiled, frozen := [], [], false, [];
    }

    method Start()
      requires Valid()
      modifies this`request
      ensures Valid() && Value() == Exec(old(Value()), StartRequest)
    {
      if phase != Idle && phase != Done { return; }
      request := true;
    }

    /** Core 1 tests the flag before a drain. */
    method TestActive() returns (active: bool)
      requires Valid() && !draining
      modifies this`draining
      ensures Valid() && active == Enabled(old(Value()), Enter)
      ensures Value() == if active then Exec(old(Value()), Enter) else old(Value())
    {
      active := captureActive;
      draining := active;
    }

    method Leave()
      requires Valid() && Enabled(Value(), Step.Leave)
      modifies this`draining
      ensures Valid() && Value() == Exec(old(Value()), Step.Leave)
    {
      draining := false;
    }

    // ----- core 0 -----

    /** One part of the RESET command, whatever the round is doing. */
    method ResetPart(part: CD.CapStep)
      requires Valid() && Enabled(Value(), Command(part))
      modifies this`spoiled, cap, cap.det, cap.mem, cap.io
      ensures Valid() && Value() == Exec(old(Value()), Command(part))
    {
      DoPart(part);
      spoiled := spoiled || Running(phase);
    }

    method DoPart(part: CD.CapStep)
      requires Valid() && Enabled(Value(), Command(part))
      modifies cap, cap.det, cap.mem, cap.io
      ensures Valid() && Value() == old(Value()).(cap := CD.Do(old(cap.Value()), part))
    {
      match part
      case ReArmLog => cap.ReArm();
      case ResetDetector => cap.ResetPhases();
      case ResetCapture => cap.Reset();
    }

    /** The RESET command: the log, the detector, the capture. */
    method CommandReset()
      requires Valid()
      modifies this`spoiled, cap, cap.det, cap.mem, cap.io
      ensures Valid()
      ensures Value() == Exec(Exec(Exec(old(Value()), Command(CD.ReArmLog)), Command(CD.ResetDetector)),
                              Command(CD.ResetCapture))
    {
      ResetPart(CD.ReArmLog);
      ResetPart(CD.ResetDetector);
      ResetPart(CD.ResetCapture);
    }

    // The parts of a tick that concern the capture.

    /** The one-time claim of the DMA channels. */
    method ClaimOnce()
      requires Valid()
      modifies this`inited, cap, txn
      ensures Valid() && Value() == Claimed(old(Value()))
    {
      if !inited {
        cap.Init();
        txn.Init();
        inited := true;
      }
    }

    method ResetAnalysers()
      requires Valid()
      modifies cap, cap.det, txn, txn.bi
      ensures Valid()
      ensures Value() == old(Value()).(cap := CD.Do(old(cap.Value()), CD.ResetDetector),
                                       txn := TC.Do(old(txn.Value()), TC.ResetTally))
    {
      cap.ResetPhases();
      txn.ResetAnalyser();
    }

    method ResetCaptures()
      requires Valid() && TC.CanDo(txn.Value(), TC.OnRing(CR.Reset))
      modifies cap, cap.mem, cap.io, txn, txn.ring
      ensures Valid()
      ensures Value() == old(Value()).(cap := CD.Do(old(cap.Value()), CD.ResetCapture),
                                       txn := TC.Do(old(txn.Value()), TC.OnRing(CR.Reset)))
    {
      cap.Reset();
      txn.Reset();
    }

    method StopCaptures()
      requires Valid()
      modifies cap, txn
      ensures Valid()
      ensures Value() == old(Value()).(cap := CD.Do(old(cap.Value()), CD.Stop), txn := TC.Do(old(txn.Value()), TC.Stop))
    {
      cap.StopCapture();
      txn.StopCapture();
    }

    // The parts that concern the round's own statics.

    method EnterPhase(p: Phase, due: nat)
      requires Valid()
      modifies this`captureActive, this`deadline, this`phase
      ensures Valid() && Value() == old(Value()).(core := old(CoreValue()).(deadline := due, phase := p))
    {
      captureActive, deadline, phase := p == Capturing, due, p;
    }

    method ClearPasses()
      requires Valid()
      modifies this`anomAccum, this`passes, this`ends
      ensures Valid() && Value() == old(Value()).(passes := [], ends := [])
    {
      anomAccum := {};
      passes, ends := [], [];
    }

    method ClearCore()
      requires Valid()
      modifies this`request, this`pass, this`spoiled
      ensures Valid()
      ensures Value() == old(Value()).(core := old(CoreValue()).(request := false, pass := 0), spoiled := false)
    {
      request, pass, spoiled := false, 0, false;
    }

    /** `s_anom_accum |= ...`. */
    method AddAnomalies(snap: Probe)
      requires anomAccum == AllFlags(ends)
      modifies this`anomAccum, this`ends
      ensures ends == old(ends) + [PassEnd(snap, txn.bi.nReads)] && anomAccum == AllFlags(ends)
    {
      var flags := Classify(snap, txn.bi.nReads);
      AllFlagsStep(ends, PassEnd(snap, txn.bi.nReads));
      anomAccum := anomAccum + flags;
      ends := ends + [PassEnd(snap, txn.bi.nReads)];
    }

    method AddEnd(snap: Probe)
      requires Valid()
      modifies this`anomAccum, this`ends
      ensures Valid() && Value() == old(Value()).(ends := old(ends) + [PassEnd(snap, txn.bi.nReads)])
    {
      AddAnomalies(snap);
    }

    method AddPass(ghost p: Pass)
      requires Valid()
      modifies this`pass, this`passes
      ensures Valid()
      ensures Value() == old(Value()).(core := old(CoreValue()).(pass := old(pass) + 1), passes := old(passes) + [p])
    {
      pass := pass + 1;
      passes := passes + [p];
    }

    method Record(snap: Probe, ghost p: Pass)
      requires Valid()
      modifies this`pass, this`anomAccum, this`passes, this`ends
      ensures Valid()
      ensures Value() == old(Value()).(core := old(CoreValue()).(pass := old(pass) + 1), passes := old(passes) + [p],
                                       ends := old(ends) + [PassEnd(snap, txn.bi.nReads)])
    {
      AddEnd(snap);
      AddPass(p);
    }

    method CountPass(snap: Probe)
      requires Valid()
      modifies this`pass, this`anomAccum, this`passes, this`ends
      ensures Valid() && Value() == Counted(old(Value()), snap)
    {
      Record(snap, PassOf(Value()));
    }

    method FreezeResult() returns (r: Result)
      ensures r == Freeze(txn.bi.Value(), cap.det.Value(), anomAccum, pass)
    {
      var bi, det := txn.bi, cap.det;
      var t := bi.Value();
      r := Result(
        anomAccum, BI.StuckDataHi(t, MIN_READS), BI.StuckDataLo(t, MIN_READS),
        BI.StuckAddr(t, MIN_READS, MIN_ADDR_BITS), BI.BusUndriven(t, MIN_READS),
        bi.cpChecked, bi.cpFailed, bi.nReads,
        det.phaseFlags, det.lastConfirmed, det.firstMissing, det.earlyPpiWrites, det.workAreaInit, pass);
    }

    method Publish(r: Result, ghost words: seq<BC.Tagged>)
      requires Valid() && phase != Capturing
      modifies this`result, this`frozen, this`phase
      ensures Valid()
      ensures Value() == old(Value()).(core := old(CoreValue()).(phase := Done), frozen := words, result := r)
    {
      result, frozen, phase := r, words, Done;
    }

    method Finish()
      requires Valid() && phase == Settle
      modifies this`result, this`frozen, this`phase
      ensures Valid() && Value() == Finished(old(Value()))
    {
      var r := FreezeResult();
      Publish(r, WordsSince(cap.Value()));
    }

    // ----- boot_diag_tick -----

    method BeginRound()
      requires Valid() && !Running(phase) && request
      modifies this, cap, cap.det, txn, txn.bi
      ensures Valid() && Value() == RoundBegun(old(Value()))
    {
      ClaimOnce();
      ResetAnalysers();
      ClearPasses();
      ClearCore();
      EnterPhase(PassBegin, deadline);
    }

    method BeginPass(nowMs: Word)
      requires Valid() && phase == PassBegin && TC.CanDo(txn.Value(), TC.OnRing(CR.Reset))
      modifies this, cap, cap.mem, cap.io, txn, txn.ring
      ensures Valid() && Value() == PassBegun(old(Value()), nowMs)
    {
      ResetCaptures();
      EnterPhase(Capturing, Wrap32(nowMs + WINDOW_MS));
    }

    method CloseWindow(nowMs: Word)
      requires Valid() && phase == Capturing
      modifies this, cap, txn
      ensures Valid() && Value() == WindowClosed(old(Value()), nowMs)
    {
      StopCaptures();
      EnterPhase(Settle, Wrap32(nowMs + SETTLE_MS));
    }

    method EndPass(snap: Probe)
      requires Valid() && phase == Settle
      modifies this
      ensures Valid() && Value() == PassEnded(old(Value()), snap)
    {
      CountPass(snap);
      if AllSeen(cap.det.phaseFlags) || pass >= MAX_PASSES {
        Finish();
      } else {
        EnterPhase(PassBegin, deadline);
      }
    }

    /** `boot_diag_tick`. */
    method Tick(nowMs: Word, snap: Probe)
      requires Valid() && Enabled(Value(), Step.Tick(nowMs, snap))
      modifies this, cap, cap.det, cap.mem, cap.io, txn, txn.bi, txn.ring
      ensures Valid() && Value() == Exec(old(Value()), Step.Tick(nowMs, snap))
    {
      match phase
      case Idle => if request { BeginRound(); }
      case Done => if request { BeginRound(); }
      case PassBegin => BeginPass(nowMs);
      case Capturing => if Reached(nowMs, deadline) { CloseWindow(nowMs); }
      case Settle => if Reached(nowMs, deadline) { EndPass(snap); }
    }
  }
}
