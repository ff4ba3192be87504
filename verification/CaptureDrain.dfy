/** The drain of boot_capture.c: core 1 merges two capture rings and the cart-read log into the
  * detector, while the DMA writes and core 0 may reset the detector or the capture at any moment. */
module CaptureDrain {
  import opened Words
  import opened BootDetect
  import opened BootCapture
  import CR = CaptureRing
  import T = Traces

  // ----- the cart-read log -----

  /** The log's cells, how many of them the DMA has filled since it was armed, and the reader's
    * cursor. cap: the count that a drain now in its log loop took at the start of it. staleCap: the
    * log was re-armed since. torn: it was re-armed since the cursor was last put back to 0, or the
    * cursor was put back under a stale cap. */
  datatype Log = Log(cells: seq<Word>, count: nat, rd: nat, cap: Option<nat>, staleCap: bool, torn: bool)

  predicate FreshLog(l: Log) { |l.cells| == ALOG_TOTAL && l == Log(l.cells, 0, 0, None, false, false) }

  /** What the log holds since it was armed. */
  function Held(l: Log): seq<Word> { if l.count <= |l.cells| then l.cells[..l.count] else l.cells }

  /** The transfer count is finite: a full log takes nothing more. */
  function LogWritten(l: Log, w: Word): Log {
    if l.count < |l.cells| then l.(cells := l.cells[l.count := w], count := l.count + 1) else l
  }

  function ReArmed(l: Log): Log { l.(count := 0, staleCap := l.cap.Some?, torn := true) }

  function Rewound(l: Log): Log { l.(rd := 0, torn := l.staleCap) }

  /** Unless torn, what was handed out is the beginning of what the log holds. */
  ghost predicate LogOk(l: Log, logged: seq<Word>) {
    && |l.cells| == ALOG_TOTAL && l.count <= ALOG_TOTAL
    && (l.cap.Some? ==> l.cap.value <= ALOG_TOTAL && (!l.staleCap ==> l.cap.value <= l.count))
    && (l.staleCap ==> l.cap.Some? && l.torn)
    && (!l.torn ==> l.rd <= l.count && logged == l.cells[..l.rd])
  }

  // ----- the state machine -----

  /** claimed: boot_capture_init has run. armed: the capture machines and their DMA channels are
    * running. all: every word ever handed to the detector. detFrom and capFrom: how many there were
    * at the last detector and the last capture reset. logged: log words handed over since the
    * latter. */
  datatype CapState = CapState(
    claimed: bool, armed: bool, mem: CR.RingState, io: CR.RingState, log: Log, det: DetectState,
    all: seq<Tagged>, detFrom: nat, capFrom: nat, logged: seq<Word>)

  /** A step of one ring other than its reset; the log's DMA, its re-arming and the three parts of a
    * drain's log loop; set-up, stop and the two resets. */
  datatype CapStep =
    | OnRing(src: Source, step: CR.Step)
    | WriteLog(w: Word) | ReArmLog | BeginLog | TakeLog | EndLog
    | Claim | Stop | ResetDetector | ResetCapture

  function RingOf(s: CapState, src: Source): CR.RingState { if src == MemRing then s.mem else s.io }

  function WithRing(s: CapState, src: Source, r: CR.RingState): CapState {
    if src == MemRing then s.(mem := r) else s.(io := r)
  }

  function Feed(s: CapState, t: Tagged): CapState {
    s.(det := match Decode(t) case Some(e) => FeedOne(s.det, e) case None => s.det, all := s.all + [t])
  }

  predicate CanDo(s: CapState, step: CapStep) {
    match step
    case OnRing(src, ring) => src != Alog && !ring.Reset? && CR.CanStep(RingOf(s, src), ring)
    case BeginLog => s.log.cap.None?
    case TakeLog => s.log.cap.Some? && s.log.rd < s.log.cap.value && s.log.rd < |s.log.cells|
    case EndLog => s.log.cap.Some? && s.log.cap.value <= s.log.rd
    case _ => true
  }

  /** A stopped channel writes nothing; before boot_capture_init a capture reset does nothing. */
  function Do(s: CapState, step: CapStep): CapState
    requires CanDo(s, step)
  {
    match step
    case OnRing(src, ring) =>
      if ring.Write? && !s.armed then s
      else
        var fed := if ring.Take? then Feed(s, Tagged(src, CR.NextWord(RingOf(s, src)))) else s;
        WithRing(fed, src, CR.Exec(RingOf(s, src), ring))
    case WriteLog(w) => if s.claimed then s.(log := LogWritten(s.log, w)) else s
    case ReArmLog => s.(log := ReArmed(s.log))
    case BeginLog => s.(log := s.log.(cap := Some(s.log.count), staleCap := false))
    case TakeLog =>
      var w := s.log.cells[s.log.rd];
      Feed(s, Tagged(Alog, w)).(log := s.log.(rd := s.log.rd + 1), logged := s.logged + [w])
    case EndLog => s.(log := s.log.(cap := None, staleCap := false))
    case Claim => s.(claimed := true, armed := true)
    case Stop => s.(armed := false)
    case ResetDetector => s.(det := START, detFrom := |s.all|)
    case ResetCapture =>
      if !s.claimed then s
      else s.(mem := CR.ResetStep(s.mem), io := CR.ResetStep(s.io), log := Rewound(s.log), armed := true,
              capFrom := |s.all|, logged := [])
  }

  predicate FreshCapture(s: CapState) {
    CR.Fresh(s.mem) && CR.Fresh(s.io) && FreshLog(s.log)
    && s == CapState(false, false, s.mem, s.io, s.log, START, [], 0, 0, [])
  }

  /** One step of a run. */
  predicate Next(s: CapState, step: CapStep, t: CapState) { CanDo(s, step) && t == Do(s, step) }

  // ----- what every step keeps -----

  /** The detector is what its words since its last reset make of it; since the last capture reset
    * it got what the rings handed out and the log words, each stream whole and in order. */
  ghost predicate Ledger(s: CapState) {
    && s.detFrom <= |s.all| && s.capFrom <= |s.all|
    && s.det == After(s.all[s.detFrom..])
    && Merges(s.all[s.capFrom..], s.mem.hist.out, s.io.hist.out, s.logged)
  }

  ghost predicate CapInv(s: CapState) { CR.Inv(s.mem) && CR.Inv(s.io) && LogOk(s.log, s.logged) && Ledger(s) }

  lemma FreshLedger(s: CapState)
    requires FreshCapture(s)
    ensures CapInv(s)
  {
    CR.FreshInv(s.mem);
    CR.FreshInv(s.io);
    forall src ensures Only([], src) == TagAll(src, Of([], [], [], src)) {}
  }

  lemma FeedKeepsDetector(s: CapState, t: Tagged)
    requires s.detFrom <= |s.all| && s.det == After(s.all[s.detFrom..])
    ensures Feed(s, t).det == After(Feed(s, t).all[s.detFrom..])
  {
    EventsStep(s.all[s.detFrom..], t);
    assert (s.all + [t])[s.detFrom..] == s.all[s.detFrom..] + [t];
  }

  lemma FeedKeepsMerge(s: CapState, t: Tagged)
    requires s.capFrom <= |s.all| && Merges(s.all[s.capFrom..], s.mem.hist.out, s.io.hist.out, s.logged)
    ensures Merges(Feed(s, t).all[s.capFrom..], Longer(s.mem.hist.out, t, MemRing), Longer(s.io.hist.out, t, IoRing),
                   Longer(s.logged, t, Alog))
  {
    MergesOneMore(s.all[s.capFrom..], s.mem.hist.out, s.io.hist.out, s.logged, t);
    assert (s.all + [t])[s.capFrom..] == s.all[s.capFrom..] + [t];
  }

  lemma RingStepOut(r: CR.RingState, step: CR.Step)
    requires CR.CanStep(r, step) && !step.Reset?
    ensures CR.Exec(r, step).hist.out == if step.Take? then r.hist.out + [CR.NextWord(r)] else r.hist.out
  {
  }

  lemma RingKeepsLedger(s: CapState, src: Source, ring: CR.Step)
    requires Ledger(s) && CanDo(s, OnRing(src, ring))
    ensures Ledger(Do(s, OnRing(src, ring)))
  {
    RingStepOut(RingOf(s, src), ring);
    if ring.Take? {
      FeedKeepsDetector(s, Tagged(src, CR.NextWord(RingOf(s, src))));
      FeedKeepsMerge(s, Tagged(src, CR.NextWord(RingOf(s, src))));
    }
  }

  lemma TakeLogKeepsLedger(s: CapState)
    requires Ledger(s) && CanDo(s, TakeLog)
    ensures Ledger(Do(s, TakeLog))
  {
    FeedKeepsDetector(s, Tagged(Alog, s.log.cells[s.log.rd]));
    FeedKeepsMerge(s, Tagged(Alog, s.log.cells[s.log.rd]));
  }

  lemma ResetKeepsLedger(s: CapState)
    requires Ledger(s)
    ensures Ledger(Do(s, ResetDetector)) && Ledger(Do(s, ResetCapture))
  {
    forall src ensures Only([], src) == TagAll(src, Of([], [], [], src)) {}
    assert s.all[|s.all|..] == [];
  }

  /** Steps that feed nothing and reset nothing. */
  predicate Silent(step: CapStep) { !step.OnRing? && !step.TakeLog? && !step.ResetDetector? && !step.ResetCapture? }

  lemma SilentKeepsLedger(s: CapState, step: CapStep)
    requires Ledger(s) && CanDo(s, step) && Silent(step)
    ensures Ledger(Do(s, step))
  {
    var t := Do(s, step);
    assert t.mem == s.mem && t.io == s.io && t.logged == s.logged;
  }

  lemma StepKeepsLedger(s: CapState, step: CapStep)
    requires Ledger(s) && CanDo(s, step)
    ensures Ledger(Do(s, step))
  {
    match step
    case OnRing(src, ring) => RingKeepsLedger(s, src, ring);
    case TakeLog => TakeLogKeepsLedger(s);
    case ResetDetector => ResetKeepsLedger(s);
    case ResetCapture => ResetKeepsLedger(s);
    case _ => SilentKeepsLedger(s, step);
  }

  lemma StepKeepsRings(s: CapState, step: CapStep)
    requires CR.Inv(s.mem) && CR.Inv(s.io) && CanDo(s, step)
    ensures CR.Inv(Do(s, step).mem) && CR.Inv(Do(s, step).io)
  {
    match step
    case OnRing(src, ring) => CR.StepKeepsInv(RingOf(s, src), ring);
    case ResetCapture =>
      CR.StepKeepsInv(s.mem, CR.Reset);
      CR.StepKeepsInv(s.io, CR.Reset);
    case _ =>
  }

  lemma StepKeepsLog(s: CapState, step: CapStep)
    requires LogOk(s.log, s.logged) && CanDo(s, step)
    ensures LogOk(Do(s, step).log, Do(s, step).logged)
  {
  }

  lemma StepKeepsCapInv(s: CapState, step: CapStep)
    requires CapInv(s) && CanDo(s, step)
    ensures CapInv(Do(s, step))
  {
    StepKeepsRings(s, step);
    StepKeepsLog(s, step);
    StepKeepsLedger(s, step);
  }

  // ----- every run -----

  lemma {:induction false} DidKeepsCapInv(s: CapState, steps: seq<CapStep>, v: CapState)
    requires CapInv(s) && T.Did(Next, s, steps, v)
    ensures CapInv(v)
    decreases |steps|
  {
    if steps != [] {
      var init, last := steps[..|steps| - 1], steps[|steps| - 1];
      var u :| T.Did(Next, s, init, u) && Next(u, last, v);
      DidKeepsCapInv(s, init, u);
      StepKeepsCapInv(u, last);
    }
  }

  lemma RunKeepsCapInv(s0: CapState, steps: seq<CapStep>, s: CapState)
    requires FreshCapture(s0) && T.Did(Next, s0, steps, s)
    ensures CapInv(s)
  {
    FreshLedger(s0);
    DidKeepsCapInv(s0, steps, s);
  }

  /** Whatever the schedule, the detector is as if it had been fed each stream whole, one after the
    * other: behind what came between its last reset and the last capture reset, or, if it was reset
    * later than the capture, from where each stream then was. */
  lemma DetectorAfterRun(s0: CapState, steps: seq<CapStep>, s: CapState) returns (i: nat, j: nat, k: nat)
    requires FreshCapture(s0) && T.Did(Next, s0, steps, s)
    ensures s.capFrom <= |s.all| && s.detFrom <= |s.all|
    ensures s.detFrom <= s.capFrom ==>
      s.det == After(s.all[s.detFrom..s.capFrom] + InTurn(s.mem.hist.out, s.io.hist.out, s.logged))
    ensures i <= |s.mem.hist.out| && j <= |s.io.hist.out| && k <= |s.logged|
    ensures s.capFrom <= s.detFrom ==>
      && Merges(s.all[s.capFrom..s.detFrom], s.mem.hist.out[..i], s.io.hist.out[..j], s.logged[..k])
      && s.det == After(InTurn(s.mem.hist.out[i..], s.io.hist.out[j..], s.logged[k..]))
  {
    RunKeepsCapInv(s0, steps, s);
    i, j, k := 0, 0, 0;
    if s.detFrom <= s.capFrom { ResetBefore(s); }
    if s.capFrom <= s.detFrom { i, j, k := ResetAfter(s); }
  }

  lemma ResetBefore(s: CapState)
    requires Ledger(s) && s.detFrom <= s.capFrom
    ensures s.det == After(s.all[s.detFrom..s.capFrom] + InTurn(s.mem.hist.out, s.io.hist.out, s.logged))
  {
    assert s.all[s.detFrom..] == s.all[s.detFrom..s.capFrom] + s.all[s.capFrom..];
    ScheduleDoesNotMatter(s.all[s.detFrom..s.capFrom], s.all[s.capFrom..], s.mem.hist.out, s.io.hist.out, s.logged);
  }

  lemma ResetAfter(s: CapState) returns (i: nat, j: nat, k: nat)
    requires Ledger(s) && s.capFrom <= s.detFrom
    ensures i <= |s.mem.hist.out| && j <= |s.io.hist.out| && k <= |s.logged|
    ensures Merges(s.all[s.capFrom..s.detFrom], s.mem.hist.out[..i], s.io.hist.out[..j], s.logged[..k])
    ensures s.det == After(InTurn(s.mem.hist.out[i..], s.io.hist.out[j..], s.logged[k..]))
  {
    var since, n := s.all[s.capFrom..], s.detFrom - s.capFrom;
    i, j, k := MergesSplit(since, s.mem.hist.out, s.io.hist.out, s.logged, n);
    assert since[..n] == s.all[s.capFrom..s.detFrom] && since[n..] == s.all[s.detFrom..];
    ScheduleDoesNotMatter([], since[n..], s.mem.hist.out[i..], s.io.hist.out[j..], s.logged[k..]);
    assert [] + since[n..] == since[n..];
    var turn := InTurn(s.mem.hist.out[i..], s.io.hist.out[j..], s.logged[k..]);
    assert [] + turn == turn;
  }

  lemma CleanStep(s: CapState, step: CapStep)
    requires CanDo(s, step) && step != ResetCapture
    ensures var t := Do(s, step); t.mem.dirty == s.mem.dirty && t.io.dirty == s.io.dirty && t.capFrom == s.capFrom
  {
  }

  /** Without a capture reset no ring's reset has fallen into a drain. */
  lemma {:induction false} CleanWithoutReset(s0: CapState, steps: seq<CapStep>, s: CapState)
    requires T.Did(Next, s0, steps, s) && ResetCapture !in steps
    ensures s.mem.dirty == s0.mem.dirty && s.io.dirty == s0.io.dirty && s.capFrom == s0.capFrom
    decreases |steps|
  {
    if steps != [] {
      var init, last := steps[..|steps| - 1], steps[|steps| - 1];
      var u :| T.Did(Next, s0, init, u) && Next(u, last, s);
      assert last in steps;
      CleanWithoutReset(s0, init, u);
      CleanStep(u, last);
    }
  }

  /** Every gap shorter than the ring, every read on time. */
  ghost predicate InTime(h: CR.History) {
    |h.readAt| == |h.out| && CR.OnTime(h) && forall k :: 0 <= k < |h.gaps| ==> h.gaps[k] < CR.RING_LEN
  }

  /** The words that the DMA captured up to the last sample. */
  function Captured(h: CR.History): seq<Word> {
    if CR.Sum(h.gaps) <= |h.stream| then h.stream[..CR.Sum(h.gaps)] else h.stream
  }

  /** Between drains, with both rings sampled and read in time and no capture reset in the middle of
    * a drain, these are the streams as the DMA captured them. What came after a ring's last sample,
    * stream[Sum(gaps)..], no drain has seen. */
  lemma CaptureIsExact(s0: CapState, steps: seq<CapStep>, s: CapState)
    requires FreshCapture(s0) && T.Did(Next, s0, steps, s) && s.detFrom <= s.capFrom
    requires s.mem.local.NoDrain? && !s.mem.dirty && InTime(s.mem.hist)
    requires s.io.local.NoDrain? && !s.io.dirty && InTime(s.io.hist)
    ensures s.capFrom <= |s.all|
    ensures s.det == After(s.all[s.detFrom..s.capFrom] + InTurn(Captured(s.mem.hist), Captured(s.io.hist), s.logged))
    ensures !s.log.torn ==> s.log.rd <= |Held(s.log)| && s.logged == Held(s.log)[..s.log.rd]
  {
    RunKeepsCapInv(s0, steps, s);
    ResetBefore(s);
    CR.LosslessDrain(s.mem.hist);
    CR.LosslessDrain(s.io.hist);
  }

  // ----- the log, from one moment of a run to another -----

  /** Until the log is re-armed its words stay, and others are added behind them. */
  lemma {:induction false} LogGrows(s: CapState, steps: seq<CapStep>, v: CapState)
    requires CapInv(s) && T.Did(Next, s, steps, v) && ReArmLog !in steps
    ensures Held(s.log) <= Held(v.log)
    ensures !s.log.torn ==> !v.log.torn
    decreases |steps|
  {
    if steps != [] {
      var init, last := steps[..|steps| - 1], steps[|steps| - 1];
      var u :| T.Did(Next, s, init, u) && Next(u, last, v);
      assert last in steps;
      LogGrows(s, init, u);
      DidKeepsCapInv(s, init, u);
      LogGrowsStep(u, last);
    }
  }

  lemma LogGrowsStep(s: CapState, step: CapStep)
    requires LogOk(s.log, s.logged) && CanDo(s, step) && step != ReArmLog
    ensures Held(s.log) <= Held(Do(s, step).log)
    ensures !s.log.torn ==> !Do(s, step).log.torn
  {
  }

  /** So what two drains took from the log, with or without resets between them, are two beginnings
    * of the same words: unless the log is re-armed in between, nothing is left out and the shorter
    * one comes again. */
  lemma LogRepeats(s: CapState, steps: seq<CapStep>, v: CapState)
    requires CapInv(s) && !s.log.torn && T.Did(Next, s, steps, v) && ReArmLog !in steps
    ensures s.log.rd <= |Held(s.log)| && s.logged == Held(s.log)[..s.log.rd]
    ensures v.log.rd <= |Held(v.log)| && v.logged == Held(v.log)[..v.log.rd]
    ensures s.logged <= v.logged || v.logged <= s.logged
  {
    LogGrows(s, steps, v);
    DidKeepsCapInv(s, steps, v);
  }

  // ----- one drain, with what the others do meanwhile -----

  /** What the DMA and the other core may do at any moment. */
  predicate IsEnv(step: CapStep) {
    match step
    case OnRing(src, ring) => src != Alog && ring.Write?
    case _ => step.WriteLog? || step.ReArmLog? || step.Stop? || step.ResetDetector? || step.ResetCapture?
  }

  /** env[i] is what the others do before core 1's i-th next action. */
  predicate IsEnvs(env: seq<seq<CapStep>>) { forall i :: 0 <= i < |env| ==> AllEnv(env[i]) }

  predicate AllEnv(acts: seq<CapStep>) { forall i :: 0 <= i < |acts| ==> IsEnv(acts[i]) }

  function At(env: seq<seq<CapStep>>, i: nat): (acts: seq<CapStep>)
    ensures IsEnvs(env) ==> AllEnv(acts)
  {
    T.At(env, i)
  }

  function Taking(src: Source, env: seq<seq<CapStep>>, k: nat): seq<CapStep> {
    if k == 0 then [OnRing(src, CR.Sample)] + At(env, 0) + [OnRing(src, CR.Load)]
    else Taking(src, env, k - 1) + At(env, k) + [OnRing(src, CR.Take)]
  }

  /** A whole drain of one ring that hands out k words. */
  function RingDrain(src: Source, env: seq<seq<CapStep>>, k: nat): seq<CapStep> {
    Taking(src, env, k) + At(env, k + 1) + [OnRing(src, CR.WriteBack)]
  }

  function Logging(env: seq<seq<CapStep>>, k: nat): seq<CapStep> {
    if k == 0 then [BeginLog] + At(env, 0) else Logging(env, k - 1) + [TakeLog] + At(env, k)
  }

  /** A whole loop over the log that hands out k words. */
  function LogDrain(env: seq<seq<CapStep>>, k: nat): seq<CapStep> { Logging(env, k) + [EndLog] }

  /** Where core 1 is in a drain; nothing that the others do changes it. */
  predicate SameDrains(s: CapState, t: CapState) {
    CR.SameDrain(s.mem.local, t.mem.local) && CR.SameDrain(s.io.local, t.io.local) && s.log.cap == t.log.cap
  }

  lemma EnvKeepsDrains(s: CapState, act: CapStep)
    requires IsEnv(act) && CanDo(s, act)
    ensures SameDrains(s, Do(s, act)) && Do(s, act).log.rd <= s.log.rd
  {
  }

  // ----- the statics that the firmware updates -----

  class Capture {
    const mem: CR.Ring
    const io: CR.Ring
    const det: Detector
    const alogRaw: array<Word>     // the log's cells, written by its DMA channel
    var alogCount: nat             // from the channel's write address
    var alogRd: nat
    var claimed: bool              // the DMA channels of the two rings have been claimed
    var armed: bool                // and are running
    ghost var logCap: Option<nat>
    ghost var staleCap: bool
    ghost var torn: bool
    ghost var all: seq<Tagged>
    ghost var detFrom: nat
    ghost var capFrom: nat
    ghost var logged: seq<Word>

    ghost function LogValue(): Log
      reads this, alogRaw
    {
      Log(alogRaw[..], alogCount, alogRd, logCap, staleCap, torn)
    }

    ghost function Value(): CapState
      reads this, det, mem, mem.slots, io, io.slots, alogRaw
    {
      CapState(claimed, armed, mem.Value(), io.Value(), LogValue(), det.Value(), all, detFrom, capFrom, logged)
    }

    ghost predicate Valid()
      reads this, mem, io
    {
      && mem != io && mem.slots != io.slots && mem.slots != alogRaw && io.slots != alogRaw
      && mem.Valid() && io.Valid() && alogRaw.Length == ALOG_TOTAL && alogCount <= ALOG_TOTAL
    }

    constructor ()
      ensures Valid() && FreshCapture(Value())
      ensures fresh(mem) && fresh(mem.slots) && fresh(io) && fresh(io.slots) && fresh(det) && fresh(alogRaw)
    {
      mem := new CR.Ring(0x2000_0000);
      io := new CR.Ring(0x2000_4000);
      det := new Detector();
      alogRaw := new Word[ALOG_TOTAL](_ => 0);
      alogCount, alogRd, claimed, armed := 0, 0, false, false;
      logCap, staleCap, torn := None, false, false;
      all, detFrom, capFrom, logged := [], 0, 0, [];
      new;
      det.Reset();
    }

    // ----- core 0 -----

    /** `alog_init` and `boot_capture_init`. */
    method Init()
      requires Valid()
      modifies this`claimed, this`armed
      ensures Valid() && Value() == Do(old(Value()), Claim)
    {
      claimed, armed := true, true;
    }

    /** `alog_reset`: the channel starts over at the first cell; what the cells hold stays. */
    method ReArm()
      requires Valid()
      modifies this`alogCount, this`staleCap, this`torn
      ensures Valid() && Value() == Do(old(Value()), ReArmLog)
    {
      alogCount := 0;
      staleCap, torn := logCap.Some?, true;
    }

    /** `boot_capture_stop`. */
    method StopCapture()
      requires Valid()
      modifies this`armed
      ensures Valid() && Value() == Do(old(Value()), Stop)
    {
      armed := false;
    }

    /** `boot_capture_reset`, whatever core 1 is doing: the rings start over and the log is read
      * from its front again; the detector keeps what it has seen. */
    method Reset()
      requires Valid()
      modifies this`alogRd, this`armed, this`torn, this`capFrom, this`logged, mem, io
      ensures Valid() && Value() == Do(old(Value()), ResetCapture)
    {
      if claimed {
        ResetRings();
        Rewind();
      }
    }

    method Rewind()
      requires Valid()
      modifies this`alogRd, this`armed, this`torn, this`capFrom, this`logged
      ensures Valid()
      ensures Value() == old(Value()).(armed := true, log := Rewound(old(LogValue())), capFrom := |all|, logged := [])
    {
      alogRd, armed := 0, true;
      torn, capFrom, logged := staleCap, |all|, [];
    }

    method ResetRings()
      requires Valid()
      modifies mem, io
      ensures Valid() && Value() == old(Value()).(mem := CR.ResetStep(old(mem.Value())), io := CR.ResetStep(old(io.Value())))
    {
      mem.Reset();
      io.Reset();
    }

    method ResetPhases()
      requires Valid()
      modifies this`detFrom, det
      ensures Valid() && Value() == Do(old(Value()), ResetDetector)
    {
      det.Reset();
      detFrom := |all|;
    }

    // ----- the DMA -----

    method DmaWrite(src: Source, w: Word)
      requires Valid() && src != Alog
      modifies mem, mem.slots, io, io.slots
      ensures Valid() && CanDo(old(Value()), OnRing(src, CR.Write(w)))
      ensures Value() == Do(old(Value()), OnRing(src, CR.Write(w)))
    {
      if !armed { return; }
      if src == MemRing { mem.DmaWrite(w); } else { io.DmaWrite(w); }
    }

    /** The log's transfer count runs out with its last cell. */
    method LogWrite(w: Word)
      requires Valid()
      modifies this`alogCount, alogRaw
      ensures Valid() && Value() == Do(old(Value()), WriteLog(w))
    {
      if claimed && alogCount < ALOG_TOTAL {
        alogRaw[alogCount] := w;
        alogCount := alogCount + 1;
        assert alogRaw[..] == LogWritten(old(LogValue()), w).cells;
      }
    }

    // ----- core 1, with what the others do meanwhile -----

    method Act(act: CapStep)
      requires Valid() && IsEnv(act)
      modifies this, det, mem, mem.slots, io, io.slots, alogRaw
      ensures Valid() && Next(old(Value()), act, Value())
    {
      match act
      case OnRing(src, step) => DmaWrite(src, step.w);
      case WriteLog(w) => LogWrite(w);
      case ReArmLog => ReArm();
      case Stop => StopCapture();
      case ResetDetector => ResetPhases();
      case ResetCapture => Reset();
    }

    method Meanwhile(acts: seq<CapStep>)
      requires Valid() && AllEnv(acts)
      modifies this, det, mem, mem.slots, io, io.slots, alogRaw
      ensures Valid() && T.Did(Next, old(Value()), acts, Value())
      ensures SameDrains(old(Value()), Value()) && alogRd <= old(alogRd)
    {
      ghost var s0 := Value();
      for i := 0 to |acts|
        invariant Valid() && T.Did(Next, s0, acts[..i], Value())
        invariant SameDrains(s0, Value()) && alogRd <= s0.log.rd
      {
        ghost var v := Value();
        Act(acts[i]);
        EnvKeepsDrains(v, acts[i]);
        T.DidOne(Next, s0, acts[..i], v, acts[i], Value());
        assert acts[..i] + [acts[i]] == acts[..i + 1];
      }
      assert acts[..|acts|] == acts;
    }

    /** Decode and feed one word; true if it was an event. */
    method FeedWord(t: Tagged) returns (counted: bool)
      requires Valid()
      modifies this`all, det
      ensures Valid() && Value() == Feed(old(Value()), t) && counted == Decode(t).Some?
    {
      match Decode(t) {
        case Some(e) => det.Feed(e); counted := true;
        case None => counted := false;
      }
      all := all + [t];
    }

    // One action on one ring: sample, load, take and decode, store.

    method SampleRing(src: Source) returns (t: Word)
      requires Valid() && CanDo(Value(), OnRing(src, CR.Sample))
      modifies mem, io
      ensures Valid() && Value() == Do(old(Value()), OnRing(src, CR.Sample))
      ensures RingOf(Value(), src).local == CR.Sampled(t, false)
    {
      if src == MemRing { t := mem.DmaTotal(); } else { t := io.DmaTotal(); }
    }

    method LoadRing(src: Source, t: Word) returns (cursor: Word)
      requires Valid() && CanDo(Value(), OnRing(src, CR.Load)) && RingOf(Value(), src).local.t == t
      modifies mem, io
      ensures Valid() && Value() == Do(old(Value()), OnRing(src, CR.Load))
      ensures CR.InCopy(RingOf(Value(), src), t, cursor)
    {
      if src == MemRing { cursor := mem.LoadCursor(t); } else { cursor := io.LoadCursor(t); }
    }

    method TakeRing(src: Source, t: Word, cursor: Word) returns (counted: bool, next: Word)
      requires Valid() && src != Alog && CR.InCopy(RingOf(Value(), src), t, cursor) && cursor != t
      modifies this`all, det, mem, io
      ensures Valid() && Next(old(Value()), OnRing(src, CR.Take), Value())
      ensures CR.InCopy(RingOf(Value(), src), t, next) && next == Wrap32(cursor + 1)
    {
      var raw;
      if src == MemRing { raw, next := mem.TakeWord(t, cursor); } else { raw, next := io.TakeWord(t, cursor); }
      counted := FeedWord(Tagged(src, raw));
    }

    method StoreRing(src: Source, cursor: Word)
      requires Valid() && src != Alog && CR.InCopy(RingOf(Value(), src), cursor, cursor)
      modifies mem, io
      ensures Valid() && Next(old(Value()), OnRing(src, CR.WriteBack), Value())
    {
      if src == MemRing { mem.StoreCursor(cursor); } else { io.StoreCursor(cursor); }
    }

    method BeginRing(src: Source, acts: seq<CapStep>) returns (t: Word, cursor: Word)
      requires Valid() && src != Alog && AllEnv(acts) && RingOf(Value(), src).local.NoDrain?
      modifies this, det, mem, mem.slots, io, io.slots, alogRaw
      ensures Valid() && CR.InCopy(RingOf(Value(), src), t, cursor)
      ensures T.Did(Next, old(Value()), [OnRing(src, CR.Sample)] + acts + [OnRing(src, CR.Load)], Value())
      ensures SameElse(old(Value()), Value(), src)
    {
      ghost var s0 := Value();
      t := SampleRing(src);
      ghost var s1 := Value();
      T.DidOne(Next, s0, [], s0, OnRing(src, CR.Sample), s1);
      assert [] + [OnRing(src, CR.Sample)] == [OnRing(src, CR.Sample)];
      cursor := FirstCursor(src, acts, t, s0, [OnRing(src, CR.Sample)]);
      RingKeepsElse(s0, s0, s0, s1, src, CR.Sample, CR.Sample);
      SameElseTwice(s0, s1, Value(), src);
    }

    method FirstCursor(src: Source, acts: seq<CapStep>, t: Word, ghost s0: CapState, ghost done: seq<CapStep>)
      returns (cursor: Word)
      requires Valid() && src != Alog && AllEnv(acts) && RingOf(Value(), src).local == CR.Sampled(t, false)
      requires T.Did(Next, s0, done, Value())
      modifies this, det, mem, mem.slots, io, io.slots, alogRaw
      ensures Valid() && CR.InCopy(RingOf(Value(), src), t, cursor)
      ensures T.Did(Next, s0, done + acts + [OnRing(src, CR.Load)], Value())
      ensures SameElse(old(Value()), Value(), src)
    {
      ghost var s1 := Value();
      Meanwhile(acts);
      ghost var s2 := Value();
      cursor := LoadRing(src, t);
      RingKeepsElse(s1, s1, s2, Value(), src, CR.Load, CR.Load);
      T.DidMore(Next, s0, done, s1, acts, s2, OnRing(src, CR.Load), Value());
    }

    method TurnRing(src: Source, acts: seq<CapStep>, t: Word, cursor: Word, ghost s0: CapState, ghost done: seq<CapStep>)
      returns (counted: bool, next: Word)
      requires Valid() && src != Alog && AllEnv(acts)
      requires CR.InCopy(RingOf(Value(), src), t, cursor) && cursor != t && T.Did(Next, s0, done, Value())
      modifies this, det, mem, mem.slots, io, io.slots, alogRaw
      ensures Valid() && CR.InCopy(RingOf(Value(), src), t, next) && next == Wrap32(cursor + 1)
      ensures T.Did(Next, s0, done + acts + [OnRing(src, CR.Take)], Value())
      ensures SameElse(old(Value()), Value(), src)
    {
      ghost var s1 := Value();
      Meanwhile(acts);
      ghost var s2 := Value();
      counted, next := TakeRing(src, t, cursor);
      RingKeepsElse(s1, s1, s2, Value(), src, CR.Take, CR.Take);
      T.DidMore(Next, s0, done, s1, acts, s2, OnRing(src, CR.Take), Value());
    }

    method EndRing(src: Source, acts: seq<CapStep>, cursor: Word, ghost s0: CapState, ghost done: seq<CapStep>)
      requires Valid() && src != Alog && AllEnv(acts)
      requires CR.InCopy(RingOf(Value(), src), cursor, cursor) && T.Did(Next, s0, done, Value())
      modifies this, det, mem, mem.slots, io, io.slots, alogRaw
      ensures Valid() && RingOf(Value(), src).local.NoDrain?
      ensures T.Did(Next, s0, done + acts + [OnRing(src, CR.WriteBack)], Value())
      ensures SameElse(old(Value()), Value(), src)
    {
      ghost var s1 := Value();
      Meanwhile(acts);
      ghost var s2 := Value();
      StoreRing(src, cursor);
      RingKeepsElse(s1, s1, s2, Value(), src, CR.WriteBack, CR.WriteBack);
      T.DidMore(Next, s0, done, s1, acts, s2, OnRing(src, CR.WriteBack), Value());
    }

    /** The loop of `drain_ring`: decode and feed up to the count. */
    method CopyRing(src: Source, env: seq<seq<CapStep>>, t: Word, first: Word, ghost s0: CapState)
      returns (n: nat, i: nat, ghost steps: seq<CapStep>)
      requires Valid() && src != Alog && IsEnvs(env) && CR.InCopy(RingOf(Value(), src), t, first)
      requires T.Did(Next, s0, Taking(src, env, 0), Value())
      modifies this, det, mem, mem.slots, io, io.slots, alogRaw
      ensures Valid() && n <= i && CR.InCopy(RingOf(Value(), src), t, t)
      ensures SameElse(old(Value()), Value(), src)
      ensures steps == Taking(src, env, i) && T.Did(Next, s0, steps, Value())
    {
      var cursor := first;
      n, i := 0, 0;
      steps := Taking(src, env, 0);
      ghost var v0 := Value();
      ghost var v := v0;
      while cursor != t
        invariant Valid() && v == Value() && n <= i
        invariant CR.InCopy(RingOf(v, src), t, cursor) && SameElse(v0, v, src)
        invariant steps == Taking(src, env, i) && T.Did(Next, s0, steps, v)
        decreases CR.Left(t, cursor)
      {
        CR.OneCloser(t, cursor);
        var counted;
        counted, cursor := TurnRing(src, At(env, i + 1), t, cursor, s0, steps);
        SameElseTwice(v0, v, Value(), src);
        v := Value();
        steps := steps + At(env, i + 1) + [OnRing(src, CR.Take)];
        TakingNext(src, env, i);
        if counted { n := n + 1; }
        i := i + 1;
      }
    }

    /** `drain_ring`: sample the count, load the cursor past any overrun, decode and feed up to the
      * count, store the cursor; meanwhile anything may happen. */
    method DrainRing(src: Source, env: seq<seq<CapStep>>) returns (n: nat, k: nat, ghost steps: seq<CapStep>)
      requires Valid() && src != Alog && IsEnvs(env) && RingOf(Value(), src).local.NoDrain?
      modifies this, det, mem, mem.slots, io, io.slots, alogRaw
      ensures Valid() && n <= k && RingOf(Value(), src).local.NoDrain?
      ensures SameElse(old(Value()), Value(), src)
      ensures steps == RingDrain(src, env, k) && T.Did(Next, old(Value()), steps, Value())
    {
      ghost var s0 := Value();
      var t, cursor := BeginRing(src, At(env, 0));
      ghost var s1 := Value();
      n, k, steps := CopyRing(src, env, t, cursor, s0);
      ghost var s2 := Value();
      EndRing(src, At(env, k + 1), t, s0, steps);
      SameElseTwice(s0, s1, s2, src);
      SameElseTwice(s0, s2, Value(), src);
      steps := steps + At(env, k + 1) + [OnRing(src, CR.WriteBack)];
    }

    // The log.

    /** `cap = alog_captured()`. */
    method LogCount() returns (cap: nat)
      requires Valid() && logCap.None?
      modifies this`logCap, this`staleCap
      ensures Valid() && Next(old(Value()), BeginLog, Value()) && logCap == Some(cap) && cap <= ALOG_TOTAL
    {
      cap := alogCount;
      logCap, staleCap := Some(cap), false;
    }

    method TakeLogWord(cap: nat) returns (counted: bool)
      requires Valid() && logCap == Some(cap) && alogRd < cap <= ALOG_TOTAL
      modifies this`all, this`logged, this`alogRd, det
      ensures Valid() && Next(old(Value()), TakeLog, Value()) && alogRd == old(alogRd) + 1
    {
      var raw := alogRaw[alogRd];
      counted := FeedWord(Tagged(Alog, raw));
      logged := logged + [raw];
      alogRd := alogRd + 1;
    }

    method LeaveLog(cap: nat)
      requires Valid() && logCap == Some(cap) && cap <= alogRd
      modifies this`logCap, this`staleCap
      ensures Valid() && Next(old(Value()), EndLog, Value()) && SameRings(old(Value()), Value())
    {
      logCap, staleCap := None, false;
    }

    method BeginLogLoop(acts: seq<CapStep>) returns (cap: nat)
      requires Valid() && AllEnv(acts) && logCap.None?
      modifies this, det, mem, mem.slots, io, io.slots, alogRaw
      ensures Valid() && logCap == Some(cap) && cap <= ALOG_TOTAL && SameRings(old(Value()), Value())
      ensures T.Did(Next, old(Value()), [BeginLog] + acts, Value())
    {
      ghost var s0 := Value();
      cap := LogCount();
      ghost var s1 := Value();
      T.DidOne(Next, s0, [], s0, BeginLog, s1);
      assert [] + [BeginLog] == [BeginLog];
      Meanwhile(acts);
      T.DidTwo(Next, s0, [BeginLog], s1, acts, Value());
    }

    method TurnLog(acts: seq<CapStep>, cap: nat, ghost s0: CapState, ghost done: seq<CapStep>) returns (counted: bool)
      requires Valid() && AllEnv(acts) && logCap == Some(cap) && alogRd < cap <= ALOG_TOTAL
      requires T.Did(Next, s0, done, Value())
      modifies this, det, mem, mem.slots, io, io.slots, alogRaw
      ensures Valid() && logCap == Some(cap) && SameRings(old(Value()), Value())
      ensures T.Did(Next, s0, done + [TakeLog] + acts, Value())
      ensures acts == [] ==> Rest(cap, alogRd) < Rest(cap, old(alogRd))
    {
      ghost var s1 := Value();
      counted := TakeLogWord(cap);
      ghost var s2 := Value();
      Meanwhile(acts);
      T.DidOne(Next, s0, done, s1, TakeLog, s2);
      T.DidTwo(Next, s0, done + [TakeLog], s2, acts, Value());
    }

    /** The loop over the cart-read log; its bound is the count at its start. */
    method CopyLog(env: seq<seq<CapStep>>, cap: nat, ghost s0: CapState) returns (n: nat, k: nat)
      requires Valid() && IsEnvs(env) && logCap == Some(cap) && cap <= ALOG_TOTAL
      requires T.Did(Next, s0, Logging(env, 0), Value())
      modifies this, det, mem, mem.slots, io, io.slots, alogRaw
      ensures Valid() && n <= k && logCap == Some(cap) && cap <= alogRd && SameRings(old(Value()), Value())
      ensures T.Did(Next, s0, Logging(env, k), Value())
    {
      n, k := 0, 0;
      ghost var v0 := Value();
      ghost var v := v0;
      while alogRd < cap
        invariant Valid() && v == Value() && n <= k && logCap == Some(cap)
        invariant SameRings(v0, v) && T.Did(Next, s0, Logging(env, k), v)
        decreases Rest(|env|, k + 1), Rest(cap, alogRd)
      {
        RestNext(env, k + 1);
        var counted := TurnLog(At(env, k + 1), cap, s0, Logging(env, k));
        LoggingNext(env, k);
        SameRingsTwice(v0, v, Value());
        v := Value();
        if counted { n := n + 1; }
        k := k + 1;
      }
    }

    /** The log loop as a whole. */
    method DrainLog(env: seq<seq<CapStep>>) returns (n: nat, k: nat, ghost steps: seq<CapStep>)
      requires Valid() && IsEnvs(env) && logCap.None?
      modifies this, det, mem, mem.slots, io, io.slots, alogRaw
      ensures Valid() && n <= k && logCap.None? && SameRings(old(Value()), Value())
      ensures steps == LogDrain(env, k) && T.Did(Next, old(Value()), steps, Value())
    {
      ghost var s0 := Value();
      var cap := BeginLogLoop(At(env, 0));
      ghost var s1 := Value();
      n, k := CopyLog(env, cap, s0);
      ghost var s2 := Value();
      LeaveLog(cap);
      T.DidOne(Next, s0, Logging(env, k), s2, EndLog, Value());
      SameRingsTwice(s0, s1, s2);
      SameRingsTwice(s0, s2, Value());
      steps := LogDrain(env, k);
    }

    /** `boot_capture_drain`: memory ring, I/O ring, then the new part of the cart-read log. */
    method Drain(memEnv: seq<seq<CapStep>>, ioEnv: seq<seq<CapStep>>, logEnv: seq<seq<CapStep>>)
      returns (n: nat, i: nat, j: nat, k: nat, ghost steps: seq<CapStep>)
      requires Valid() && IsEnvs(memEnv) && IsEnvs(ioEnv) && IsEnvs(logEnv) && Resting(Value())
      modifies this, det, mem, mem.slots, io, io.slots, alogRaw
      ensures Valid() && Resting(Value()) && n <= i + j + k
      ensures steps == RingDrain(MemRing, memEnv, i) + RingDrain(IoRing, ioEnv, j) + LogDrain(logEnv, k)
      ensures T.Did(Next, old(Value()), steps, Value())
    {
      ghost var s0 := Value();
      n, i, steps := DrainRing(MemRing, memEnv);
      ghost var s1 := Value();
      var m;
      ghost var more;
      m, j, more := DrainRing(IoRing, ioEnv);
      ghost var s2 := Value();
      T.DidTwo(Next, s0, steps, s1, more, s2);
      steps, n := steps + more, n + m;
      m, k, more := DrainLog(logEnv);
      T.DidTwo(Next, s0, steps, s2, more, Value());
      steps, n := steps + more, n + m;
    }
  }

  /** No drain is in progress. */
  predicate Resting(s: CapState) { s.mem.local.NoDrain? && s.io.local.NoDrain? && s.log.cap.None? }

  /** The other ring's drain and the log loop are where they were. */
  predicate SameElse(s: CapState, t: CapState, src: Source) {
    CR.SameDrain(RingOf(s, Other(src)).local, RingOf(t, Other(src)).local) && s.log.cap == t.log.cap
  }

  predicate SameRings(s: CapState, t: CapState) {
    CR.SameDrain(s.mem.local, t.mem.local) && CR.SameDrain(s.io.local, t.io.local)
  }

  lemma RingKeepsElse(s0: CapState, s1: CapState, s2: CapState, s3: CapState, src: Source, first: CR.Step, last: CR.Step)
    requires src != Alog && SameDrains(s1, s2)
    requires (s1 == s0 || Next(s0, OnRing(src, first), s1)) && Next(s2, OnRing(src, last), s3)
    ensures SameElse(s0, s3, src)
  {
  }

  lemma SameElseTwice(s: CapState, t: CapState, u: CapState, src: Source)
    requires SameElse(s, t, src) && SameElse(t, u, src)
    ensures SameElse(s, u, src)
  {
  }

  lemma SameRingsTwice(s: CapState, t: CapState, u: CapState)
    requires SameRings(s, t) && SameRings(t, u)
    ensures SameRings(s, u)
  {
  }

  function Rest(n: nat, i: nat): nat { if i < n then n - i else 0 }

  lemma RestNext(env: seq<seq<CapStep>>, k: nat)
    ensures Rest(|env|, k + 1) < Rest(|env|, k) || (At(env, k) == [] && Rest(|env|, k + 1) == Rest(|env|, k))
  {
  }

  function Other(src: Source): Source { if src == MemRing then IoRing else MemRing }

  lemma TakingNext(src: Source, env: seq<seq<CapStep>>, k: nat)
    ensures Taking(src, env, k + 1) == Taking(src, env, k) + At(env, k + 1) + [OnRing(src, CR.Take)]
  {
  }

  lemma LoggingNext(env: seq<seq<CapStep>>, k: nat)
    ensures Logging(env, k + 1) == Logging(env, k) + [TakeLog] + At(env, k + 1)
  {
  }
}
