/** A whole round in terms of the bus: what the DMA was offered while each pass's window was open, what the
  * probe showed at its end, and what the frozen result says about these. */
module RoundBus {
  import opened Words
  import opened BootDiag
  import opened DiagRound
  import opened RoundRuns
  import BC = BootCapture
  import BI = BusIntegrity
  import BY = BusCycles
  import CD = CaptureDrain
  import CH = CaptureRuns
  import CR = CaptureRing
  import TC = TxnCapture

  // ----- what was to be seen of each pass -----

  /** The transfers offered to the three rings while the window was open, and the probe's snapshot at the
    * pass's end. */
  datatype Window = Window(mem: seq<Word>, io: seq<Word>, txn: seq<Word>, probe: Option<Probe>)

  function Offered(w: Window, cap: CD.CapStep): Window {
    if !cap.OnRing? || !cap.step.Write? then w
    else if cap.src == BC.MemRing then w.(mem := w.mem + [cap.step.w])
    else w.(io := w.io + [cap.step.w])
  }

  function OfferedRead(w: Window, txn: TC.TxnStep): Window {
    if txn.OnRing? && txn.step.Write? then w.(txn := w.txn + [txn.step.w]) else w
  }

  /** One more step: a tick at PASS_BEGIN opens a window; transfers count while the round is CAPTURING; the
    * tick that notices the settle deadline takes the probe's snapshot. */
  function Seen(ws: seq<Window>, core: Core, step: Step): seq<Window> {
    match step
    case Tick(now, snap) =>
      if core.phase == PassBegin then ws + [Window([], [], [], None)]
      else if core.phase == Settle && Reached(now, core.deadline) && ws != []
      then ws[..|ws| - 1] + [ws[|ws| - 1].(probe := Some(snap))]
      else ws
    case Cap(cap) =>
      if core.phase == Capturing && ws != [] then ws[..|ws| - 1] + [Offered(ws[|ws| - 1], cap)] else ws
    case Txn(txn) =>
      if core.phase == Capturing && ws != [] then ws[..|ws| - 1] + [OfferedRead(ws[|ws| - 1], txn)] else ws
    case _ => ws
  }

  /** The windows of the round that began at step b, up to step n. */
  function Windows(states: seq<Sys>, steps: seq<Step>, b: nat, n: nat): seq<Window>
    requires b < n <= |steps| && |states| == |steps| + 1
    decreases n
  {
    if n == b + 1 then [] else Seen(Windows(states, steps, b, n - 1), states[n - 1].core, steps[n - 1])
  }

  // ----- each pass captures exactly its window -----

  ghost predicate Matches(p: Pass, probe: Option<Probe>, w: Window) {
    p.mem.stream == w.mem && p.io.stream == w.io && p.txn.stream == w.txn && w.probe == probe
  }

  ghost predicate AllMatch(ps: seq<Pass>, probes: seq<Option<Probe>>, ws: seq<Window>) {
    if ps == [] then probes == [] && ws == []
    else
      var n := |ps| - 1;
      && |probes| == |ws| == n + 1 && AllMatch(ps[..n], probes[..n], ws[..n]) && Matches(ps[n], probes[n], ws[n])
  }

  lemma {:induction false} AllMatchAt(ps: seq<Pass>, probes: seq<Option<Probe>>, ws: seq<Window>, i: nat)
    requires AllMatch(ps, probes, ws) && i < |ps|
    ensures |probes| == |ws| == |ps| && Matches(ps[i], probes[i], ws[i])
  {
    if i < |ps| - 1 { AllMatchAt(ps[..|ps| - 1], probes[..|ps| - 1], ws[..|ps| - 1], i); }
  }

  lemma {:induction false} OneMoreMatch(ps: seq<Pass>, probes: seq<Option<Probe>>, ws: seq<Window>,
                                        p: Pass, probe: Option<Probe>, w: Window)
    requires AllMatch(ps, probes, ws) && Matches(p, probe, w)
    ensures AllMatch(ps + [p], probes + [probe], ws + [w])
  {
    assert |probes| == |ws| == |ps|;
    assert (ps + [p])[..|ps|] == ps && (probes + [probe])[..|ps|] == probes && (ws + [w])[..|ps|] == ws;
  }

  lemma {:induction false} LastMatches(ps: seq<Pass>, probes: seq<Option<Probe>>, ws: seq<Window>,
                                       p: Pass, probe: Option<Probe>)
    requires AllMatch(ps + [p], probes + [probe], ws)
    ensures ws != [] && AllMatch(ps, probes, ws[..|ws| - 1]) && Matches(p, probe, ws[|ws| - 1])
  {
    var qs, rs := ps + [p], probes + [probe];
    assert |rs| == |ws| == |qs|;
    assert qs[..|qs| - 1] == ps && rs[..|qs| - 1] == probes;
  }

  /** The last window has moved on, and so has the pass. */
  lemma {:induction false} NewLast(ps: seq<Pass>, probes: seq<Option<Probe>>, ws: seq<Window>,
                                   p: Pass, probe: Option<Probe>, p': Pass, probe': Option<Probe>, w': Window)
    requires AllMatch(ps + [p], probes + [probe], ws) && Matches(p', probe', w')
    ensures ws != [] && AllMatch(ps + [p'], probes + [probe'], ws[..|ws| - 1] + [w'])
  {
    LastMatches(ps, probes, ws, p, probe);
    OneMoreMatch(ps, probes, ws[..|ws| - 1], p', probe', w');
  }

  function Probes(ends: seq<PassEnd>): seq<Option<Probe>> {
    seq(|ends|, i requires 0 <= i < |ends| => Some(ends[i].probe))
  }

  /** The passes of the round, the present one included, and what is known of their ends. */
  function PassesNow(s: Sys): seq<Pass> { if InPass(s.core.phase) then s.passes + [PassOf(s)] else s.passes }

  function ProbesNow(s: Sys): seq<Option<Probe>> {
    if InPass(s.core.phase) then Probes(s.ends) + [None] else Probes(s.ends)
  }

  /** In a pass the channels run exactly while the window is open. */
  predicate ArmedInWindow(s: Sys) {
    InPass(s.core.phase) ==> s.cap.armed == s.txn.armed == (s.core.phase == Capturing)
  }

  ghost predicate WindowsOk(s: Sys, ws: seq<Window>) { AllMatch(PassesNow(s), ProbesNow(s), ws) && ArmedInWindow(s) }

  // ----- step by step -----

  lemma CapKeepsMatch(s: Sys, cap: CD.CapStep, w: Window)
    requires Enabled(s, Cap(cap)) && InPass(s.core.phase) && ArmedInWindow(s) && Matches(PassOf(s), None, w)
    ensures var t := Exec(s, Cap(cap));
            Matches(PassOf(t), None, if s.core.phase == Capturing then Offered(w, cap) else w) && ArmedInWindow(t)
  {
    CH.CapTold(s.cap, cap, BC.MemRing);
    CH.CapTold(s.cap, cap, BC.IoRing);
  }

  lemma TxnKeepsMatch(s: Sys, txn: TC.TxnStep, w: Window)
    requires Enabled(s, Txn(txn)) && InPass(s.core.phase) && ArmedInWindow(s) && Matches(PassOf(s), None, w)
    ensures var t := Exec(s, Txn(txn));
            Matches(PassOf(t), None, if s.core.phase == Capturing then OfferedRead(w, txn) else w) && ArmedInWindow(t)
  {
    CH.TxnTold(s.txn, txn);
  }

  /** A pass goes on; only its last window may have changed. */
  lemma PassGoesOn(s: Sys, t: Sys, ws: seq<Window>, w': Window)
    requires InPass(s.core.phase) && InPass(t.core.phase) && t.passes == s.passes && t.ends == s.ends
    requires WindowsOk(s, ws) && Matches(PassOf(t), None, w') && ArmedInWindow(t)
    ensures ws != [] && WindowsOk(t, ws[..|ws| - 1] + [w'])
  {
    NewLast(s.passes, Probes(s.ends), ws, PassOf(s), None, PassOf(t), None, w');
  }

  lemma SameWindows(ws: seq<Window>)
    requires ws != []
    ensures ws[..|ws| - 1] + [ws[|ws| - 1]] == ws
  {
  }

  lemma CapKeepsWindows(s: Sys, cap: CD.CapStep, ws: seq<Window>)
    requires Enabled(s, Cap(cap)) && InPass(s.core.phase) && WindowsOk(s, ws)
    ensures WindowsOk(Exec(s, Cap(cap)), Seen(ws, s.core, Cap(cap)))
  {
    LastMatches(s.passes, Probes(s.ends), ws, PassOf(s), None);
    var w := ws[|ws| - 1];
    CapKeepsMatch(s, cap, w);
    PassGoesOn(s, Exec(s, Cap(cap)), ws, if s.core.phase == Capturing then Offered(w, cap) else w);
    SameWindows(ws);
  }

  lemma TxnKeepsWindows(s: Sys, txn: TC.TxnStep, ws: seq<Window>)
    requires Enabled(s, Txn(txn)) && InPass(s.core.phase) && WindowsOk(s, ws)
    ensures WindowsOk(Exec(s, Txn(txn)), Seen(ws, s.core, Txn(txn)))
  {
    LastMatches(s.passes, Probes(s.ends), ws, PassOf(s), None);
    var w := ws[|ws| - 1];
    TxnKeepsMatch(s, txn, w);
    PassGoesOn(s, Exec(s, Txn(txn)), ws, if s.core.phase == Capturing then OfferedRead(w, txn) else w);
    SameWindows(ws);
  }

  lemma OpenKeepsWindows(s: Sys, now: Word, ws: seq<Window>)
    requires s.core.phase == PassBegin && TC.CanDo(s.txn, TC.OnRing(CR.Reset)) && WindowsOk(s, ws)
    requires s.cap.claimed && s.txn.claimed
    ensures WindowsOk(PassBegun(s, now), ws + [Window([], [], [], None)])
  {
    var t, w := PassBegun(s, now), Window([], [], [], None);
    assert Matches(PassOf(t), None, w);
    OneMoreMatch(s.passes, Probes(s.ends), ws, PassOf(t), None, w);
  }

  lemma CloseKeepsWindows(s: Sys, now: Word, ws: seq<Window>)
    requires s.core.phase == Capturing && WindowsOk(s, ws)
    ensures WindowsOk(WindowClosed(s, now), ws)
  {
    LastMatches(s.passes, Probes(s.ends), ws, PassOf(s), None);
    PassGoesOn(s, WindowClosed(s, now), ws, ws[|ws| - 1]);
    SameWindows(ws);
  }

  lemma ProbesStep(ends: seq<PassEnd>, e: PassEnd)
    ensures Probes(ends + [e]) == Probes(ends) + [Some(e.probe)]
  {
  }

  lemma EndKeepsWindows(s: Sys, snap: Probe, ws: seq<Window>)
    requires s.core.phase == Settle && WindowsOk(s, ws)
    ensures ws != [] && WindowsOk(PassEnded(s, snap), ws[..|ws| - 1] + [ws[|ws| - 1].(probe := Some(snap))])
  {
    LastMatches(s.passes, Probes(s.ends), ws, PassOf(s), None);
    var t, w := PassEnded(s, snap), ws[|ws| - 1].(probe := Some(snap));
    NewLast(s.passes, Probes(s.ends), ws, PassOf(s), None, PassOf(s), Some(snap), w);
    AfterPass(s, snap);
    ProbesStep(s.ends, t.ends[|t.ends| - 1]);
  }

  lemma TickKeepsWindows(s: Sys, now: Word, snap: Probe, ws: seq<Window>)
    requires Enabled(s, Tick(now, snap)) && Running(s.core.phase) && s.cap.claimed && s.txn.claimed && WindowsOk(s, ws)
    ensures WindowsOk(ExecTick(s, now, snap), Seen(ws, s.core, Tick(now, snap)))
  {
    match s.core.phase
    case PassBegin => OpenKeepsWindows(s, now, ws);
    case Capturing => CloseKeepsWindows(s, now, ws);
    case Settle => EndKeepsWindows(s, snap, ws);
  }

  lemma QuietKeepsWindows(s: Sys, t: Sys, ws: seq<Window>)
    requires WindowsOk(s, ws) && t == s.(core := t.core, draining := t.draining) && t.core.phase == s.core.phase
    ensures WindowsOk(t, ws)
  {
    assert PassOf(t) == PassOf(s);
  }

  /** Outside a pass the rings do not count. */
  lemma BetweenKeepsWindows(s: Sys, t: Sys, ws: seq<Window>)
    requires WindowsOk(s, ws) && s.core.phase == PassBegin && t == s.(cap := t.cap, txn := t.txn)
    ensures WindowsOk(t, ws)
  {
  }

  lemma StepKeepsWindows(s: Sys, step: Step, ws: seq<Window>)
    requires CoreOk(s) && Enabled(s, step) && Running(s.core.phase) && !step.Command? && WindowsOk(s, ws)
    ensures WindowsOk(Exec(s, step), Seen(ws, s.core, step))
  {
    match step
    case Tick(now, snap) => TickKeepsWindows(s, now, snap, ws);
    case Cap(cap) =>
      if InPass(s.core.phase) { CapKeepsWindows(s, cap, ws); } else { BetweenKeepsWindows(s, Exec(s, step), ws); }
    case Txn(txn) =>
      if InPass(s.core.phase) { TxnKeepsWindows(s, txn, ws); } else { BetweenKeepsWindows(s, Exec(s, step), ws); }
    case StartRequest => QuietKeepsWindows(s, Exec(s, step), ws);
    case Enter => QuietKeepsWindows(s, Exec(s, step), ws);
    case Leave => QuietKeepsWindows(s, Exec(s, step), ws);
    case Command(_) =>
  }

  /** The round that began at step b is still running up to step n, and no RESET command fell into it. */
  ghost predicate InRound(states: seq<Sys>, steps: seq<Step>, b: nat, n: nat)
    requires |states| == |steps| + 1
  {
    Undisturbed(states, steps, b, n) && forall k :: b < k < n ==> Running(states[k].core.phase)
  }

  ghost predicate GoesOn(s: Sys, step: Step, t: Sys) {
    CoreOk(s) && Enabled(s, step) && Running(s.core.phase) && !step.Command? && t == Exec(s, step)
  }

  /** From step b + 1 on, every step is one of a running round. */
  ghost predicate AllGoOn(states: seq<Sys>, steps: seq<Step>, b: nat, n: nat)
    requires n <= |steps| && |states| == |steps| + 1
    decreases n
  {
    n <= b + 1 || (AllGoOn(states, steps, b, n - 1) && GoesOn(states[n - 1], steps[n - 1], states[n]))
  }

  lemma RunGoesOn(states: seq<Sys>, steps: seq<Step>, m: nat)
    requires IsRun(states, steps) && m < |steps| && Running(states[m].core.phase) && !steps[m].Command?
    ensures GoesOn(states[m], steps[m], states[m + 1])
  {
    RunStep(states, steps, m);
    RunKeepsCore(states, steps, m);
  }

  lemma RoundGoesOn(states: seq<Sys>, steps: seq<Step>, b: nat, n: nat)
    requires IsRun(states, steps) && InRound(states, steps, b, n)
    ensures AllGoOn(states, steps, b, n)
  {
    forall k | b < k < n ensures GoesOn(states[k], steps[k], states[k + 1]) { RunGoesOn(states, steps, k); }
    EachGoesOn(states, steps, b, n);
  }

  lemma {:induction false} EachGoesOn(states: seq<Sys>, steps: seq<Step>, b: nat, n: nat)
    requires n <= |steps| && |states| == |steps| + 1
    requires forall k :: b < k < n ==> GoesOn(states[k], steps[k], states[k + 1])
    ensures AllGoOn(states, steps, b, n)
    decreases n
  {
    if b + 1 < n {
      EachGoesOn(states, steps, b, n - 1);
      var k := n - 1;
      assert GoesOn(states[k], steps[k], states[k + 1]);
    }
  }

  lemma GoingOnKeepsWindows(s: Sys, step: Step, t: Sys, ws: seq<Window>)
    ensures GoesOn(s, step, t) && WindowsOk(s, ws) ==> WindowsOk(t, Seen(ws, s.core, step))
  {
    if GoesOn(s, step, t) && WindowsOk(s, ws) { StepKeepsWindows(s, step, ws); }
  }

  lemma {:induction false} WindowsFollow(states: seq<Sys>, steps: seq<Step>, b: nat, n: nat)
    requires b < n <= |steps| && |states| == |steps| + 1 && AllGoOn(states, steps, b, n)
    requires states[b + 1].core.phase == PassBegin && states[b + 1].passes == [] && states[b + 1].ends == []
    ensures WindowsOk(states[n], Windows(states, steps, b, n))
    decreases n
  {
    if b + 1 < n {
      WindowsFollow(states, steps, b, n - 1);
      GoingOnKeepsWindows(states[n - 1], steps[n - 1], states[n], Windows(states, steps, b, n - 1));
    }
  }

  /** Each pass captures exactly the transfers offered in its window, no more and no less, and is ended with
    * the probe's snapshot of that moment. */
  lemma PassesCaptureWindows(states: seq<Sys>, steps: seq<Step>, b: nat, n: nat)
    requires IsRun(states, steps) && InRound(states, steps, b, n)
    ensures AllMatch(PassesNow(states[n]), ProbesNow(states[n]), Windows(states, steps, b, n))
  {
    RoundGoesOn(states, steps, b, n);
    RunStep(states, steps, b);
    BeginsEmpty(states[b], steps[b]);
    WindowsFollow(states, steps, b, n);
  }

  // ----- the log, in every run -----

  /** What was offered to the log's channel since the log was last armed, as far as its 250 cells go; before
    * the first round the channel is not claimed. */
  function LogOffered(states: seq<Sys>, steps: seq<Step>, n: nat): seq<Word>
    requires n <= |steps| && |states| == |steps| + 1
  {
    if n == 0 then []
    else
      var was, step := LogOffered(states, steps, n - 1), steps[n - 1];
      if step == Command(CD.ReArmLog) then []
      else if step.Cap? && step.cap.WriteLog? && states[n - 1].core.inited && |was| < BC.ALOG_TOTAL then was + [step.cap.w]
      else was
  }

  predicate ClaimOk(s: Sys) { s.cap.claimed == s.core.inited }

  lemma LogStep(s: Sys, step: Step)
    requires CD.LogOk(s.cap.log, s.cap.logged) && Enabled(s, step) && ClaimOk(s)
    ensures var t := Exec(s, step);
            Log(t) == if step == Command(CD.ReArmLog) then []
                      else if step.Cap? && step.cap.WriteLog? && s.core.inited && |Log(s)| < BC.ALOG_TOTAL
                      then Log(s) + [step.cap.w]
                      else Log(s)
  {
    match step
    case Cap(cap) => CH.LogTold(s.cap, cap);
    case Command(part) => CH.LogTold(s.cap, part);
    case Tick(now, snap) => TickLog(s, now, snap);
    case _ =>
  }

  lemma TickClaim(s: Sys, now: Word, snap: Probe)
    requires Enabled(s, Tick(now, snap)) && ClaimOk(s)
    ensures ClaimOk(ExecTick(s, now, snap))
  {
    match s.core.phase
    case PassBegin =>
    case Capturing =>
    case Settle =>
    case _ =>
  }

  lemma CapClaim(s: Sys, cap: CD.CapStep)
    requires Enabled(s, Cap(cap))
    ensures CD.Do(s.cap, cap).claimed == s.cap.claimed
  {
  }

  lemma ClaimStep(s: Sys, step: Step)
    requires Enabled(s, step) && ClaimOk(s)
    ensures ClaimOk(Exec(s, step))
  {
    match step
    case Tick(now, snap) => TickClaim(s, now, snap);
    case Cap(cap) => CapClaim(s, cap);
    case Command(part) => PartKeepsDrains(s.cap, part);
    case _ =>
  }

  lemma {:induction false} ClaimedIffInited(states: seq<Sys>, steps: seq<Step>, n: nat)
    requires IsRun(states, steps) && n < |states|
    ensures ClaimOk(states[n])
  {
    if n > 0 {
      ClaimedIffInited(states, steps, n - 1);
      RunStep(states, steps, n - 1);
      ClaimStep(states[n - 1], steps[n - 1]);
    }
  }

  lemma NextLog(s: Sys, step: Step, t: Sys)
    ensures Next(s, step, t) && CD.LogOk(s.cap.log, s.cap.logged) && ClaimOk(s) ==>
            Log(t) == if step == Command(CD.ReArmLog) then []
                      else if step.Cap? && step.cap.WriteLog? && s.core.inited && |Log(s)| < BC.ALOG_TOTAL
                      then Log(s) + [step.cap.w]
                      else Log(s)
  {
    if Next(s, step, t) && CD.LogOk(s.cap.log, s.cap.logged) && ClaimOk(s) { LogStep(s, step); }
  }

  /** For every run, with commands anywhere, the log holds just that. */
  lemma {:induction false} LogIsOffered(states: seq<Sys>, steps: seq<Step>, n: nat)
    requires IsRun(states, steps) && n < |states|
    ensures Log(states[n]) == LogOffered(states, steps, n)
  {
    if n > 0 {
      LogIsOffered(states, steps, n - 1);
      RunKeepsLog(states, steps, n - 1);
      RunStep(states, steps, n - 1);
      ClaimedIffInited(states, steps, n - 1);
      NextLog(states[n - 1], steps[n - 1], states[n]);
    }
  }

  // ----- the frozen result, in terms of the windows -----

  /** How far into each window the drains of a pass sampled, and what they were handed from the log. */
  datatype Cut = Cut(mem: nat, io: nat, txn: nat, log: seq<Word>)

  function CutOf(p: Pass): Cut { Cut(CR.Sum(p.mem.gaps), CR.Sum(p.io.gaps), CR.Sum(p.txn.gaps), LogPart(p)) }

  function Cuts(ps: seq<Pass>): (cs: seq<Cut>)
    ensures |cs| == |ps|
  {
    seq(|ps|, i requires 0 <= i < |ps| => CutOf(ps[i]))
  }

  function Upto(ws: seq<Word>, n: nat): seq<Word> { if n <= |ws| then ws[..n] else ws }

  /** The address and the data of each cycle. */
  function BusReads(ws: seq<Word>): seq<BI.Read> {
    seq(|ws|, i requires 0 <= i < |ws| => BI.Read(BY.CycleOf(ws[i]).addr, BY.CycleOf(ws[i]).data))
  }

  function ReadsSeen(ws: seq<Window>, cs: seq<Cut>): seq<BI.Read>
    requires |ws| == |cs|
  {
    if ws == [] then []
    else
      var n := |ws| - 1; ReadsSeen(ws[..n], cs[..n]) + BusReads(Upto(ws[n].txn, cs[n].txn))
  }

  function WordsIn(w: Window, c: Cut): seq<BC.Tagged> { BC.InTurn(Upto(w.mem, c.mem), Upto(w.io, c.io), c.log) }

  function WordsSeen(ws: seq<Window>, cs: seq<Cut>): seq<BC.Tagged>
    requires |ws| == |cs|
  {
    if ws == [] then []
    else
      var n := |ws| - 1; WordsSeen(ws[..n], cs[..n]) + WordsIn(ws[n], cs[n])
  }

  lemma ReadsAreBusReads(ws: seq<Word>)
    ensures TC.ReadsOf(ws) == BusReads(ws)
  {
    forall i | 0 <= i < |ws|
      ensures TC.ReadOf(ws[i]) == BI.Read(BY.CycleOf(ws[i]).addr, BY.CycleOf(ws[i]).data)
    {
      BY.WordIsACycle(ws[i]);
      BY.ReadOfCycle(BY.CycleOf(ws[i]));
    }
  }

  lemma {:induction false} CapturedIsSeen(ps: seq<Pass>, probes: seq<Option<Probe>>, ws: seq<Window>)
    requires AllMatch(ps, probes, ws)
    ensures |ws| == |ps|
    ensures CapturedReads(ps) == ReadsSeen(ws, Cuts(ps)) && CapturedWords(ps) == WordsSeen(ws, Cuts(ps))
  {
    if ps != [] {
      var n := |ps| - 1;
      CapturedIsSeen(ps[..n], probes[..n], ws[..n]);
      assert Cuts(ps)[..n] == Cuts(ps[..n]);
      ReadsAreBusReads(CD.Captured(ps[n].txn));
    }
  }

  /** The finished round that began at step b. */
  ghost predicate Finished(states: seq<Sys>, steps: seq<Step>, b: nat, n: nat)
    requires |states| == |steps| + 1
  {
    InRound(states, steps, b, n) && states[n].core.phase == Done
  }

  lemma FinishedMatches(states: seq<Sys>, steps: seq<Step>, b: nat, n: nat)
    requires IsRun(states, steps) && Finished(states, steps, b, n)
    ensures AllMatch(states[n].passes, Probes(states[n].ends), Windows(states, steps, b, n))
  {
    PassesCaptureWindows(states, steps, b, n);
  }

  /** End to end: with every gap below a ring and every read on time, the frozen result is the specification
    * over the cycles on the bus: address and data of each read cycle, and the words of each window up to
    * its last sample, with what the log handed over. */
  lemma RoundOnTheBus(states: seq<Sys>, steps: seq<Step>, b: nat, n: nat)
    requires IsRun(states, steps) && Finished(states, steps, b, n)
    requires forall i :: 0 <= i < |states[n].passes| ==> InTime(states[n].passes[i])
    ensures var s, ws := states[n], Windows(states, steps, b, n);
            && |ws| == |s.passes|
            && s.result == ResultOf(Trail(ReadsSeen(ws, Cuts(s.passes)), WordsSeen(ws, Cuts(s.passes)), s.ends))
  {
    LosslessRound(states, steps, b, n);
    FinishedMatches(states, steps, b, n);
    CapturedIsSeen(states[n].passes, Probes(states[n].ends), Windows(states, steps, b, n));
  }

  // ----- phases and side flags -----

  /** Word t was sampled in this window, or handed over from the log. */
  predicate Shown(w: Window, c: Cut, t: BC.Tagged) {
    match t.src
    case MemRing => t.raw in Upto(w.mem, c.mem)
    case IoRing => t.raw in Upto(w.io, c.io)
    case Alog => t.raw in c.log
  }

  lemma InTagged(src: BC.Source, ws: seq<Word>, t: BC.Tagged)
    ensures t in BC.TagAll(src, ws) <==> t.src == src && t.raw in ws
  {
    if t in BC.TagAll(src, ws) {
      var k :| 0 <= k < |ws| && BC.TagAll(src, ws)[k] == t;
    }
    if t.src == src && t.raw in ws {
      var k :| 0 <= k < |ws| && ws[k] == t.raw;
      assert BC.TagAll(src, ws)[k] == t;
    }
  }

  lemma ShownInWords(w: Window, c: Cut, t: BC.Tagged)
    ensures t in WordsIn(w, c) <==> Shown(w, c, t)
  {
    InTagged(BC.MemRing, Upto(w.mem, c.mem), t);
    InTagged(BC.IoRing, Upto(w.io, c.io), t);
    InTagged(BC.Alog, c.log, t);
  }

  ghost predicate ShownIn(ws: seq<Window>, cs: seq<Cut>, t: BC.Tagged)
    requires |ws| == |cs|
  {
    exists i :: 0 <= i < |ws| && Shown(ws[i], cs[i], t)
  }

  lemma {:induction false} ShownInStep(ws: seq<Window>, cs: seq<Cut>, t: BC.Tagged)
    requires |ws| == |cs| && ws != []
    ensures var n := |ws| - 1; ShownIn(ws, cs, t) <==> ShownIn(ws[..n], cs[..n], t) || Shown(ws[n], cs[n], t)
  {
    var n := |ws| - 1;
    forall i | 0 <= i < n ensures Shown(ws[i], cs[i], t) == Shown(ws[..n][i], cs[..n][i], t) {}
  }

  lemma {:induction false} InWordsSeen(ws: seq<Window>, cs: seq<Cut>, t: BC.Tagged)
    requires |ws| == |cs|
    ensures t in WordsSeen(ws, cs) <==> ShownIn(ws, cs, t)
  {
    if ws != [] {
      var n := |ws| - 1;
      InWordsSeen(ws[..n], cs[..n], t);
      ShownInWords(ws[n], cs[n], t);
      ShownInStep(ws, cs, t);
    }
  }

  ghost predicate SomeShown(ws: seq<Window>, cs: seq<Cut>, means: BC.Tagged -> bool)
    requires |ws| == |cs|
  {
    exists i, t :: 0 <= i < |ws| && Shown(ws[i], cs[i], t) && means(t)
  }

  lemma {:induction false} SomeWord(ws: seq<Window>, cs: seq<Cut>, means: BC.Tagged -> bool)
    requires |ws| == |cs|
    ensures (exists k :: 0 <= k < |WordsSeen(ws, cs)| && means(WordsSeen(ws, cs)[k])) <==> SomeShown(ws, cs, means)
  {
    var words := WordsSeen(ws, cs);
    if k :| 0 <= k < |words| && means(words[k]) {
      InWordsSeen(ws, cs, words[k]);
      var i :| 0 <= i < |ws| && Shown(ws[i], cs[i], words[k]);
      assert SomeShown(ws, cs, means);
    }
    if i, t :| 0 <= i < |ws| && Shown(ws[i], cs[i], t) && means(t) {
      InWordsSeen(ws, cs, t);
      var k :| 0 <= k < |words| && words[k] == t;
      assert means(words[k]);
    }
  }

  /** The detector's part of any frozen result, in bus levels: also of a round that RESET commands fell into. */
  lemma FrozenOnTheBus(tr: Trail, p: nat)
    ensures p in ResultOf(tr).phaseFlags <==> exists k :: 0 <= k < |tr.words| && BY.TaggedMeans(tr.words[k], p)
    ensures ResultOf(tr).earlyPpiWrites <==> exists k :: 0 <= k < |tr.words| && BY.MeansPpi(tr.words[k])
    ensures ResultOf(tr).workAreaInit <==> exists k :: 0 <= k < |tr.words| && BY.MeansWorkArea(tr.words[k])
  {
    BY.PhaseIffCycle(tr.words, p);
    BY.SideFlagsIffCycle(tr.words);
  }

  /** A phase is in the result iff some window shows a cycle that means it, in the stream where it counts; a
    * side flag likewise. */
  lemma PhasesOnTheBus(states: seq<Sys>, steps: seq<Step>, b: nat, n: nat, p: nat)
    requires IsRun(states, steps) && Finished(states, steps, b, n)
    requires forall i :: 0 <= i < |states[n].passes| ==> InTime(states[n].passes[i])
    ensures var s, ws := states[n], Windows(states, steps, b, n);
            && |ws| == |s.passes|
            && (p in s.result.phaseFlags <==> SomeShown(ws, Cuts(s.passes), t => BY.TaggedMeans(t, p)))
            && (s.result.earlyPpiWrites <==> SomeShown(ws, Cuts(s.passes), t => BY.MeansPpi(t)))
            && (s.result.workAreaInit <==> SomeShown(ws, Cuts(s.passes), t => BY.MeansWorkArea(t)))
  {
    RoundOnTheBus(states, steps, b, n);
    WordsMean(Windows(states, steps, b, n), Cuts(states[n].passes), p);
  }

  lemma {:induction false} WordsMean(ws: seq<Window>, cs: seq<Cut>, p: nat)
    requires |ws| == |cs|
    ensures var d := BC.After(WordsSeen(ws, cs));
            && (p in d.phaseFlags <==> SomeShown(ws, cs, t => BY.TaggedMeans(t, p)))
            && (d.earlyPpiWrites <==> SomeShown(ws, cs, t => BY.MeansPpi(t)))
            && (d.workAreaInit <==> SomeShown(ws, cs, t => BY.MeansWorkArea(t)))
  {
    BY.PhaseIffCycle(WordsSeen(ws, cs), p);
    BY.SideFlagsIffCycle(WordsSeen(ws, cs));
    SomeWord(ws, cs, t => BY.TaggedMeans(t, p));
    SomeWord(ws, cs, t => BY.MeansPpi(t));
    SomeWord(ws, cs, t => BY.MeansWorkArea(t));
  }

  // ----- anomalies -----

  /** At the end of some pass the probe's snapshot, with the reads of the round handed over by then, shows the
    * cause of anomaly a. */
  ghost predicate SomeEndShows(ws: seq<Window>, ps: seq<Pass>, a: nat)
    requires |ws| == |ps|
  {
    exists i :: 0 <= i < |ws| && ws[i].probe.Some? && Shows(PassEnd(ws[i].probe.value, |FlatReads(ps[..i + 1])|), a)
  }

  lemma {:induction false} FewerReads(ps: seq<Pass>, i: nat)
    requires i <= |ps|
    ensures |FlatReads(ps[..i])| <= |FlatReads(ps)|
  {
    if i == |ps| {
      assert ps[..i] == ps;
    } else {
      FewerReads(ps[..|ps| - 1], i);
      assert ps[..|ps| - 1][..i] == ps[..i];
    }
  }

  lemma {:induction false} EndShown(ps: seq<Pass>, ends: seq<PassEnd>, ws: seq<Window>, i: nat)
    requires AllMatch(ps, Probes(ends), ws) && EndsOk(ps, ends) && |FlatReads(ps)| < U32 && i < |ps|
    ensures |ws| == |ends| == |ps| && ws[i].probe == Some(ends[i].probe)
    ensures ends[i].count == 0 <==> FlatReads(ps[..i + 1]) == []
  {
    AllMatchAt(ps, Probes(ends), ws, i);
    EndsOkAt(ps, ends, i);
    FewerReads(ps, i + 1);
    BI.CountsExactly(FlatReads(ps[..i + 1]));
  }

  lemma {:induction false} ShownByEnds(ps: seq<Pass>, ends: seq<PassEnd>, ws: seq<Window>)
    requires AllMatch(ps, Probes(ends), ws) && EndsOk(ps, ends) && |FlatReads(ps)| < U32
    ensures |ws| == |ends| == |ps|
    ensures forall i :: 0 <= i < |ps| ==>
      ws[i].probe == Some(ends[i].probe) && (ends[i].count == 0 <==> FlatReads(ps[..i + 1]) == [])
  {
    assert ps == [] ==> ends == [] && ws == [];
    if ps != [] { EndShown(ps, ends, ws, 0); }
    forall i | 0 <= i < |ps|
      ensures ws[i].probe == Some(ends[i].probe) && (ends[i].count == 0 <==> FlatReads(ps[..i + 1]) == [])
    {
      EndShown(ps, ends, ws, i);
    }
  }

  lemma ShowsAlike(probe: Probe, m: nat, n: nat, a: nat)
    requires m == 0 <==> n == 0
    ensures Shows(PassEnd(probe, m), a) <==> Shows(PassEnd(probe, n), a)
  {
  }

  lemma {:induction false} FlagsOfEnds(ps: seq<Pass>, ends: seq<PassEnd>, ws: seq<Window>, a: nat)
    requires |ws| == |ends| == |ps|
    requires forall i :: 0 <= i < |ps| ==>
      ws[i].probe == Some(ends[i].probe) && (ends[i].count == 0 <==> FlatReads(ps[..i + 1]) == [])
    ensures a in AllFlags(ends) <==> SomeEndShows(ws, ps, a)
  {
    FlagIffShown(ends, a);
    forall i | 0 <= i < |ps|
      ensures Shows(ends[i], a) <==> Shows(PassEnd(ws[i].probe.value, |FlatReads(ps[..i + 1])|), a)
    {
      ShowsAlike(ends[i].probe, ends[i].count, |FlatReads(ps[..i + 1])|, a);
    }
  }

  /** An anomaly is in the result iff it showed at the end of some pass. */
  lemma AnomaliesOnTheBus(states: seq<Sys>, steps: seq<Step>, b: nat, n: nat, a: nat)
    requires IsRun(states, steps) && Finished(states, steps, b, n) && |FlatReads(states[n].passes)| < U32
    ensures var s, ws := states[n], Windows(states, steps, b, n);
            && |ws| == |s.passes|
            && (a in s.result.anomalyFlags <==> SomeEndShows(ws, s.passes, a))
  {
    FinishedMatches(states, steps, b, n);
    RunKeepsEnds(states, steps, n);
    RoundResult(states, steps, b, n);
    ShownByEnds(states[n].passes, states[n].ends, Windows(states, steps, b, n));
    FlagsOfEnds(states[n].passes, states[n].ends, Windows(states, steps, b, n), a);
  }
}
