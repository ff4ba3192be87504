/** Every run of a diagnostic round, one step of either core or of the DMA at a time: what its frozen
  * result is the specification of. */
module RoundRuns {
  import opened Words
  import opened BootDiag
  import opened DiagRound
  import BI = BusIntegrity
  import BC = BootCapture
  import CD = CaptureDrain
  import CR = CaptureRing
  import T = Traces
  import TC = TxnCapture

  // ----- what every step keeps -----

  function FlatWords(ps: seq<Pass>): seq<BC.Tagged> {
    if ps == [] then [] else FlatWords(ps[..|ps| - 1]) + ps[|ps| - 1].words
  }

  function FlatReads(ps: seq<Pass>): seq<BI.Read> {
    if ps == [] then [] else FlatReads(ps[..|ps| - 1]) + ps[|ps| - 1].got
  }

  lemma FlatStep(ps: seq<Pass>, p: Pass)
    ensures FlatWords(ps + [p]) == FlatWords(ps) + p.words && FlatReads(ps + [p]) == FlatReads(ps) + p.got
  {
    assert (ps + [p])[..|ps|] == ps;
  }

  ghost predicate TxnOk(p: Pass) { CR.AtRest(p.txn) && p.got == TC.ReadsOf(p.txn.out) }

  /** What the log handed over. */
  function LogPart(p: Pass): seq<Word> { if p.logRd <= |p.held| then p.held[..p.logRd] else p.held }

  /** The words are a merge of what the two rings handed out and of the beginning of the log. */
  ghost predicate CapOk(p: Pass) {
    CR.AtRest(p.mem) && CR.AtRest(p.io) && p.logRd <= |p.held| && BC.Merges(p.words, p.mem.out, p.io.out, LogPart(p))
  }

  ghost predicate CoreOk(s: Sys) {
    && (s.draining ==> InPass(s.core.phase))
    && (!s.draining ==> NoDrain(s))
    && (Running(s.core.phase) ==>
          s.core.inited && !s.core.request && s.core.pass == |s.passes| == |s.ends| < MAX_PASSES)
    && (s.core.inited ==> s.cap.claimed && s.txn.claimed)
  }

  /** The reads of a round are those of its finished passes and of the present one. No reset of this
    * ring ever falls into a drain. */
  ghost predicate TxnSide(s: Sys) {
    && TC.TxnInv(s.txn) && !s.txn.ring.dirty
    && (forall i :: 0 <= i < |s.passes| ==> TxnOk(s.passes[i]))
    && (Running(s.core.phase) ==>
          s.txn.got[s.txn.tallyFrom..]
            == FlatReads(s.passes) + if InPass(s.core.phase) then s.txn.got[s.txn.ringFrom..] else [])
  }

  /** No reset has fallen into a drain of the present pass. */
  predicate Clean(c: CD.CapState) { !c.mem.dirty && !c.io.dirty && !c.log.torn }

  /** The same for the words, as long as no RESET command has fallen into the round. */
  ghost predicate CapSide(s: Sys) {
    && CD.CapInv(s.cap)
    && (Running(s.core.phase) && !s.spoiled ==>
          && (InPass(s.core.phase) ==> Clean(s.cap))
          && s.cap.all[s.cap.detFrom..]
               == FlatWords(s.passes) + if InPass(s.core.phase) then s.cap.all[s.cap.capFrom..] else [])
    && (!s.spoiled ==> forall i :: 0 <= i < |s.passes| ==> CapOk(s.passes[i]))
  }

  ghost predicate DoneOk(s: Sys) {
    s.core.phase == Done ==>
      && s.result == ResultOf(Trail(FlatReads(s.passes), s.frozen, s.ends))
      && |s.ends| == |s.passes|
      && (!s.spoiled ==> s.frozen == FlatWords(s.passes))
  }

  ghost predicate Inv(s: Sys) { CoreOk(s) && TxnSide(s) && CapSide(s) && DoneOk(s) }

  lemma InitInv(s: Sys)
    requires Init(s)
    ensures Inv(s)
  {
    CD.FreshLedger(s.cap);
    TC.FreshTxnInv(s.txn);
  }

  /** What a ledger holds from two places on grows alike. */
  lemma SameGrowth<T>(all: seq<T>, longer: seq<T>, from: nat, later: nat, flat: seq<T>)
    requires from <= |all| && later <= |all| && all <= longer && all[from..] == flat + all[later..]
    ensures longer[from..] == flat + longer[later..]
  {
    var more := longer[|all|..];
    assert longer == all + more;
    assert longer[from..] == all[from..] + more && longer[later..] == all[later..] + more;
  }

  /** A step of a drain or of the DMA leaves where the ledgers begin, and the order of what they
    * hold. */
  lemma FedLonger(c: CD.CapState, cap: CD.CapStep)
    requires CD.CanDo(c, cap) && (CapWrite(cap) || CapDrain(cap))
    ensures var d := CD.Do(c, cap);
            && d.detFrom == c.detFrom && d.capFrom == c.capFrom && c.all <= d.all
            && d.claimed == c.claimed && (Clean(c) ==> Clean(d))
  {
  }

  /** The DMA feeds nothing and leaves the drains where they are. */
  lemma WriteFeedsNothing(c: CD.CapState, cap: CD.CapStep)
    requires CD.CanDo(c, cap) && CapWrite(cap)
    ensures CD.Do(c, cap).all == c.all && (CD.Resting(c) ==> CD.Resting(CD.Do(c, cap)))
  {
  }

  lemma CapStepKeepsSide(s: Sys, cap: CD.CapStep)
    requires Inv(s) && Enabled(s, Cap(cap))
    ensures CapSide(Exec(s, Cap(cap)))
  {
    CD.StepKeepsCapInv(s.cap, cap);
    FedLonger(s.cap, cap);
    if !s.draining { WriteFeedsNothing(s.cap, cap); }
    if InPass(s.core.phase) && !s.spoiled {
      SameGrowth(s.cap.all, CD.Do(s.cap, cap).all, s.cap.detFrom, s.cap.capFrom, FlatWords(s.passes));
    }
  }

  lemma SameTxnSide(s: Sys, t: Sys)
    requires TxnSide(s) && t.txn == s.txn && t.passes == s.passes && t.core == s.core
    ensures TxnSide(t)
  {
  }

  lemma CapStepKeeps(s: Sys, cap: CD.CapStep)
    requires Inv(s) && Enabled(s, Cap(cap))
    ensures Inv(Exec(s, Cap(cap)))
  {
    CapStepKeepsSide(s, cap);
    SameTxnSide(s, Exec(s, Cap(cap)));
    FedLonger(s.cap, cap);
    if !s.draining { WriteFeedsNothing(s.cap, cap); }
  }

  lemma GotLonger(c: TC.TxnState, txn: TC.TxnStep)
    requires TC.CanDo(c, txn) && TxnDrain(txn)
    ensures var d := TC.Do(c, txn);
            && d.tallyFrom == c.tallyFrom && d.ringFrom == c.ringFrom && c.got <= d.got
            && (TxnWrite(txn) ==> d.got == c.got && d.ring.local == c.ring.local)
            && d.ring.dirty == c.ring.dirty && d.claimed == c.claimed
  {
  }

  lemma TxnStepKeepsSide(s: Sys, txn: TC.TxnStep)
    requires Inv(s) && Enabled(s, Txn(txn))
    ensures TxnSide(Exec(s, Txn(txn)))
  {
    TC.StepKeepsTxnInv(s.txn, txn);
    GotLonger(s.txn, txn);
    if InPass(s.core.phase) {
      SameGrowth(s.txn.got, TC.Do(s.txn, txn).got, s.txn.tallyFrom, s.txn.ringFrom, FlatReads(s.passes));
    }
  }

  lemma SameCapSide(s: Sys, t: Sys)
    requires CapSide(s) && t.cap == s.cap && t.passes == s.passes && t.core == s.core && t.spoiled == s.spoiled
    ensures CapSide(t)
  {
  }

  lemma TxnStepKeeps(s: Sys, txn: TC.TxnStep)
    requires Inv(s) && Enabled(s, Txn(txn))
    ensures Inv(Exec(s, Txn(txn)))
  {
    TxnStepKeepsSide(s, txn);
    SameCapSide(s, Exec(s, Txn(txn)));
    GotLonger(s.txn, txn);
  }

  lemma PartKeepsDrains(c: CD.CapState, part: CD.CapStep)
    requires part.ReArmLog? || part.ResetDetector? || part.ResetCapture?
    ensures CD.CanDo(c, part) && CD.Do(c, part).claimed == c.claimed
    ensures CD.Resting(c) ==> CD.Resting(CD.Do(c, part))
  {
  }

  lemma CommandKeeps(s: Sys, part: CD.CapStep)
    requires Inv(s) && Enabled(s, Command(part))
    ensures Inv(Exec(s, Command(part)))
  {
    CD.StepKeepsCapInv(s.cap, part);
    PartKeepsDrains(s.cap, part);
    SameTxnSide(s, Exec(s, Command(part)));
  }

  // ----- the ticks -----

  lemma ClaimedIsClaimed(s: Sys)
    requires Inv(s)
    ensures var t := Claimed(s);
            && CD.CapInv(t.cap) && TC.TxnInv(t.txn) && !t.txn.ring.dirty && t.cap.claimed && t.txn.claimed
            && CD.Resting(t.cap) == CD.Resting(s.cap) && t.txn.ring == s.txn.ring
  {
    CD.StepKeepsCapInv(s.cap, CD.Claim);
    TC.StepKeepsTxnInv(s.txn, TC.Claim);
  }

  lemma RoundBegunKeeps(s: Sys)
    requires Inv(s) && !Running(s.core.phase)
    ensures Inv(RoundBegun(s))
  {
    ClaimedIsClaimed(s);
    var t := Claimed(s);
    CD.StepKeepsCapInv(t.cap, CD.ResetDetector);
    TC.StepKeepsTxnInv(t.txn, TC.ResetTally);
  }

  lemma PassBegunKeeps(s: Sys, now: Word)
    requires Inv(s) && s.core.phase == PassBegin && TC.CanDo(s.txn, TC.OnRing(CR.Reset))
    ensures Inv(PassBegun(s, now))
  {
    CD.StepKeepsCapInv(s.cap, CD.ResetCapture);
    TC.StepKeepsTxnInv(s.txn, TC.OnRing(CR.Reset));
  }

  lemma WindowClosedKeeps(s: Sys, now: Word)
    requires Inv(s) && s.core.phase == Capturing
    ensures Inv(WindowClosed(s, now))
  {
    CD.StepKeepsCapInv(s.cap, CD.Stop);
    TC.StepKeepsTxnInv(s.txn, TC.Stop);
  }

  lemma RingAtRest(r: CR.RingState)
    requires CR.Inv(r) && r.local.NoDrain? && !r.dirty
    ensures CR.AtRest(r.hist)
  {
  }

  lemma PassTxnOk(s: Sys)
    requires TxnSide(s) && NoDrain(s)
    ensures TxnOk(PassOf(s))
  {
    RingAtRest(s.txn.ring);
  }

  lemma PassCapOk(s: Sys)
    requires CD.CapInv(s.cap) && NoDrain(s) && Clean(s.cap)
    ensures CapOk(PassOf(s))
  {
    RingAtRest(s.cap.mem);
    RingAtRest(s.cap.io);
    assert LogPart(PassOf(s)) == s.cap.logged;
  }

  lemma PassIsOk(s: Sys)
    requires Inv(s) && s.core.phase == Settle && !s.draining
    ensures TxnOk(PassOf(s)) && (!s.spoiled ==> CapOk(PassOf(s)))
  {
    PassTxnOk(s);
    if !s.spoiled { PassCapOk(s); }
  }

  lemma PassAddsReads(s: Sys)
    requires TxnSide(s) && s.core.phase == Settle
    ensures s.txn.got[s.txn.tallyFrom..] == FlatReads(s.passes + [PassOf(s)])
  {
    FlatStep(s.passes, PassOf(s));
  }

  /** How many reads the analyser has counted after these passes. */
  function ReadCount(ps: seq<Pass>): nat { BI.FeedAll(FlatReads(ps)).counts.total }

  lemma CountedAtEnd(s: Sys)
    requires TxnSide(s) && s.core.phase == Settle
    ensures s.txn.tally.counts.total == ReadCount(s.passes + [PassOf(s)])
  {
    PassAddsReads(s);
  }

  lemma PassAddsWords(s: Sys)
    requires CapSide(s) && s.core.phase == Settle && !s.spoiled
    ensures WordsSince(s.cap) == FlatWords(s.passes + [PassOf(s)])
  {
    FlatStep(s.passes, PassOf(s));
  }

  /** What a finished pass leaves of the state. */
  lemma AfterPass(s: Sys, snap: Probe)
    ensures var t := PassEnded(s, snap);
            && t.txn == s.txn && t.cap == s.cap && t.passes == s.passes + [PassOf(s)] && t.spoiled == s.spoiled
            && |t.ends| == |s.ends| + 1 && !InPass(t.core.phase)
  {
  }

  lemma PassEndedKeepsTxn(s: Sys, snap: Probe)
    requires Inv(s) && s.core.phase == Settle && !s.draining
    ensures TxnSide(PassEnded(s, snap))
  {
    PassIsOk(s);
    PassAddsReads(s);
    AfterPass(s, snap);
  }

  lemma PassEndedKeepsCap(s: Sys, snap: Probe)
    requires Inv(s) && s.core.phase == Settle && !s.draining
    ensures CapSide(PassEnded(s, snap))
  {
    PassIsOk(s);
    if !s.spoiled { PassAddsWords(s); }
    AfterPass(s, snap);
  }

  lemma PassEndedKeepsDone(s: Sys, snap: Probe)
    requires Inv(s) && s.core.phase == Settle && !s.draining
    ensures DoneOk(PassEnded(s, snap))
  {
    PassAddsReads(s);
    if !s.spoiled { PassAddsWords(s); }
  }

  lemma PassEndedKeepsCore(s: Sys, snap: Probe)
    requires CoreOk(s) && s.core.phase == Settle && !s.draining
    ensures CoreOk(PassEnded(s, snap))
  {
  }

  lemma PassEndedKeeps(s: Sys, snap: Probe)
    requires Inv(s) && s.core.phase == Settle && !s.draining
    ensures Inv(PassEnded(s, snap))
  {
    PassEndedKeepsCore(s, snap);
    PassEndedKeepsTxn(s, snap);
    PassEndedKeepsCap(s, snap);
    PassEndedKeepsDone(s, snap);
  }

  lemma TickKeeps(s: Sys, now: Word, snap: Probe)
    requires Inv(s) && Enabled(s, Tick(now, snap))
    ensures Inv(ExecTick(s, now, snap))
  {
    match s.core.phase
    case PassBegin => PassBegunKeeps(s, now);
    case Capturing => WindowClosedKeeps(s, now);
    case Settle => if Reached(now, s.core.deadline) { PassEndedKeeps(s, snap); }
    case _ => RoundBegunKeeps(s);
  }

  lemma StepKeepsInv(s: Sys, step: Step)
    requires Inv(s) && Enabled(s, step)
    ensures Inv(Exec(s, step))
  {
    match step
    case StartRequest =>
    case Tick(now, snap) => TickKeeps(s, now, snap);
    case Enter =>
    case Leave =>
    case Cap(cap) => CapStepKeeps(s, cap);
    case Txn(txn) => TxnStepKeeps(s, txn);
    case Command(part) => CommandKeeps(s, part);
  }

  ghost predicate IsRun(states: seq<Sys>, steps: seq<Step>) {
    && |states| == |steps| + 1 && Init(states[0])
    && forall i :: 0 <= i < |steps| ==> Next(states[i], steps[i], states[i + 1])
  }

  lemma RunStep(states: seq<Sys>, steps: seq<Step>, i: nat)
    requires IsRun(states, steps) && i < |steps|
    ensures Enabled(states[i], steps[i]) && states[i + 1] == Exec(states[i], steps[i])
  {
    assert Next(states[i], steps[i], states[i + 1]);
  }

  lemma {:induction false} RunKeepsInv(states: seq<Sys>, steps: seq<Step>, n: nat)
    requires IsRun(states, steps) && n < |states|
    ensures Inv(states[n])
  {
    if n == 0 {
      InitInv(states[0]);
    } else {
      RunKeepsInv(states, steps, n - 1);
      RunStep(states, steps, n - 1);
      StepKeepsInv(states[n - 1], steps[n - 1]);
    }
  }

  lemma RunKeepsCore(states: seq<Sys>, steps: seq<Step>, n: nat)
    requires IsRun(states, steps) && n < |states|
    ensures CoreOk(states[n])
  {
    RunKeepsInv(states, steps, n);
  }

  lemma RunKeepsLog(states: seq<Sys>, steps: seq<Step>, n: nat)
    requires IsRun(states, steps) && n < |states|
    ensures CD.LogOk(states[n].cap.log, states[n].cap.logged)
  {
    RunKeepsInv(states, steps, n);
  }

  // ----- the result of a round -----

  /** Step b was the tick that began this round, and no RESET command fell into it. */
  ghost predicate Undisturbed(states: seq<Sys>, steps: seq<Step>, b: nat, n: nat)
    requires |states| == |steps| + 1
  {
    && b < n < |states| && !Running(states[b].core.phase) && states[b + 1].core.phase == PassBegin
    && forall k :: b < k < n ==> !steps[k].Command?
  }

  lemma {:induction false} NotSpoiled(states: seq<Sys>, steps: seq<Step>, b: nat, n: nat)
    requires IsRun(states, steps) && Undisturbed(states, steps, b, n)
    ensures !states[n].spoiled
    decreases n
  {
    RunStep(states, steps, n - 1);
    if n > b + 1 { NotSpoiled(states, steps, b, n - 1); }
  }

  lemma OnlyTicksFinish(s: Sys, step: Step)
    requires Enabled(s, step) && s.core.phase != Done && Exec(s, step).core.phase == Done
    ensures Exec(s, step).frozen == WordsSince(Exec(s, step).cap)
  {
  }

  /** Whenever a tick freezes a result, whatever resets fell into the round, it is the specification
    * over the reads of all passes and the words since the detector's last reset. */
  lemma FrozenAtDone(states: seq<Sys>, steps: seq<Step>, n: nat)
    requires IsRun(states, steps) && n < |steps| && states[n].core.phase != Done && states[n + 1].core.phase == Done
    ensures var s := states[n + 1];
            s.result == ResultOf(Trail(FlatReads(s.passes), WordsSince(s.cap), s.ends))
  {
    RunKeepsInv(states, steps, n + 1);
    RunStep(states, steps, n);
    OnlyTicksFinish(states[n], steps[n]);
  }

  /** When a round is done, its result is the specification over all words and reads that its drains
    * handed over, pass after pass, however ticks, drains and DMA interleaved. */
  lemma RoundResult(states: seq<Sys>, steps: seq<Step>, b: nat, n: nat)
    requires IsRun(states, steps) && Undisturbed(states, steps, b, n) && states[n].core.phase == Done
    ensures var s := states[n];
            s.result == ResultOf(Trail(FlatReads(s.passes), FlatWords(s.passes), s.ends))
  {
    RunKeepsInv(states, steps, n);
    NotSpoiled(states, steps, b, n);
  }

  ghost predicate AllOk(ps: seq<Pass>) {
    ps == [] || (AllOk(ps[..|ps| - 1]) && TxnOk(ps[|ps| - 1]) && CapOk(ps[|ps| - 1]))
  }

  lemma {:induction false} AllOkMeans(ps: seq<Pass>, i: nat)
    requires AllOk(ps) && i < |ps|
    ensures TxnOk(ps[i]) && CapOk(ps[i])
  {
    if i < |ps| - 1 { AllOkMeans(ps[..|ps| - 1], i); }
  }

  lemma {:induction false} AllOkIf(ps: seq<Pass>)
    requires forall i :: 0 <= i < |ps| ==> TxnOk(ps[i]) && CapOk(ps[i])
    ensures AllOk(ps)
  {
    if ps != [] { AllOkIf(ps[..|ps| - 1]); }
  }

  /** The frozen result is the specification, and each pass is as its drains left it. */
  ghost predicate RoundOk(s: Sys) {
    AllOk(s.passes) && s.result == ResultOf(Trail(FlatReads(s.passes), FlatWords(s.passes), s.ends))
  }

  lemma RoundIsOk(states: seq<Sys>, steps: seq<Step>, b: nat, n: nat)
    requires IsRun(states, steps) && Undisturbed(states, steps, b, n) && states[n].core.phase == Done
    ensures RoundOk(states[n])
  {
    RunKeepsInv(states, steps, n);
    NotSpoiled(states, steps, b, n);
    AllOkIf(states[n].passes);
  }

  // ----- the ends of the passes -----

  /** Each pass's end has noted how many reads had been counted by then. */
  ghost predicate EndsOk(ps: seq<Pass>, ends: seq<PassEnd>) {
    if ps == [] then ends == []
    else
      var n := |ps| - 1;
      |ends| == n + 1 && EndsOk(ps[..n], ends[..n]) && ends[n].count == ReadCount(ps)
  }

  lemma {:induction false} EndsOkAt(ps: seq<Pass>, ends: seq<PassEnd>, i: nat)
    requires EndsOk(ps, ends) && i < |ps|
    ensures |ends| == |ps| && ends[i].count == ReadCount(ps[..i + 1])
  {
    var n := |ps| - 1;
    if i < n {
      EndsOkAt(ps[..n], ends[..n], i);
      assert ps[..n][..i + 1] == ps[..i + 1];
    } else {
      assert ps[..i + 1] == ps;
    }
  }

  lemma {:induction false} OneMoreEnd(ps: seq<Pass>, ends: seq<PassEnd>, p: Pass, e: PassEnd)
    ensures EndsOk(ps, ends) && e.count == ReadCount(ps + [p]) ==> EndsOk(ps + [p], ends + [e])
  {
    assert EndsOk(ps, ends) ==> |ends| == |ps|;
    assert (ps + [p])[..|ps|] == ps;
    if |ends| == |ps| { assert (ends + [e])[..|ps|] == ends; }
  }

  predicate EndsPass(s: Sys, step: Step) { step.Tick? && s.core.phase == Settle && Reached(step.now, s.core.deadline) }

  lemma EndsGrow(s: Sys, step: Step)
    requires Enabled(s, step)
    ensures var t := Exec(s, step);
            if EndsPass(s, step) then
              t.passes == s.passes + [PassOf(s)] && t.ends == s.ends + [PassEnd(step.snap, s.txn.tally.counts.total)]
            else (t.passes == s.passes && t.ends == s.ends) || (t.passes == [] && t.ends == [])
  {
  }

  lemma {:induction false} NextKeepsEnds(s: Sys, step: Step, t: Sys)
    ensures TxnSide(s) && Next(s, step, t) && EndsOk(s.passes, s.ends) ==> EndsOk(t.passes, t.ends)
  {
    if TxnSide(s) && Next(s, step, t) {
      EndsGrow(s, step);
      if EndsPass(s, step) {
        CountedAtEnd(s);
        OneMoreEnd(s.passes, s.ends, PassOf(s), PassEnd(step.snap, s.txn.tally.counts.total));
      }
    }
  }

  lemma RunNext(states: seq<Sys>, steps: seq<Step>, i: nat)
    requires IsRun(states, steps) && i < |steps|
    ensures Next(states[i], steps[i], states[i + 1])
  {
    RunStep(states, steps, i);
  }

  lemma NoEnds(s: Sys)
    ensures Init(s) ==> EndsOk(s.passes, s.ends)
  {
  }

  lemma RunKeepsTxnSide(states: seq<Sys>, steps: seq<Step>, n: nat)
    requires IsRun(states, steps) && n < |states|
    ensures TxnSide(states[n])
  {
    RunKeepsInv(states, steps, n);
  }

  ghost predicate EndsAt(states: seq<Sys>, i: nat) { i < |states| && EndsOk(states[i].passes, states[i].ends) }

  lemma StepKeepsEnds(states: seq<Sys>, steps: seq<Step>, i: nat)
    requires IsRun(states, steps) && i < |steps|
    ensures EndsAt(states, i) ==> EndsAt(states, i + 1)
  {
    RunKeepsTxnSide(states, steps, i);
    RunNext(states, steps, i);
    NextKeepsEnds(states[i], steps[i], states[i + 1]);
  }

  lemma RunKeepsEnds(states: seq<Sys>, steps: seq<Step>, n: nat)
    requires IsRun(states, steps) && n < |states|
    ensures EndsOk(states[n].passes, states[n].ends)
  {
    var ok := (i: nat) => EndsAt(states, i);
    NoEnds(states[0]);
    forall i: nat | i < n ensures T.HandsOn(ok, i) { StepKeepsEnds(states, steps, i); }
    T.Follows(ok, n);
  }

  // ----- in terms of what the DMA captured -----

  ghost predicate InTime(p: Pass) { CD.InTime(p.mem) && CD.InTime(p.io) && CD.InTime(p.txn) }

  function CapturedIn(p: Pass): seq<BC.Tagged> { BC.InTurn(CD.Captured(p.mem), CD.Captured(p.io), LogPart(p)) }

  function CapturedWords(ps: seq<Pass>): seq<BC.Tagged> {
    if ps == [] then [] else CapturedWords(ps[..|ps| - 1]) + CapturedIn(ps[|ps| - 1])
  }

  function CapturedReads(ps: seq<Pass>): seq<BI.Read> {
    if ps == [] then []
    else CapturedReads(ps[..|ps| - 1]) + TC.ReadsOf(CD.Captured(ps[|ps| - 1].txn))
  }

  lemma PassCaptured(p: Pass, src: BC.Source)
    requires TxnOk(p) && CapOk(p) && InTime(p)
    ensures p.got == TC.ReadsOf(CD.Captured(p.txn))
    ensures BC.Only(p.words, src) == BC.Only(CapturedIn(p), src)
  {
    CR.LosslessDrain(p.mem);
    CR.LosslessDrain(p.io);
    CR.LosslessDrain(p.txn);
    BC.OnlyOfInTurn(CD.Captured(p.mem), CD.Captured(p.io), LogPart(p), src);
  }

  lemma {:induction false} PassesCaptured(ps: seq<Pass>, src: BC.Source)
    requires forall i :: 0 <= i < |ps| ==> TxnOk(ps[i]) && CapOk(ps[i]) && InTime(ps[i])
    ensures FlatReads(ps) == CapturedReads(ps)
    ensures BC.Only(FlatWords(ps), src) == BC.Only(CapturedWords(ps), src)
  {
    if ps != [] {
      var init, p := ps[..|ps| - 1], ps[|ps| - 1];
      PassesCaptured(init, src);
      PassCaptured(p, src);
      BC.OnlyOfTwo(FlatWords(init), p.words, src);
      BC.OnlyOfTwo(CapturedWords(init), CapturedIn(p), src);
    }
  }

  /** End to end: with every gap below a ring and every read on time in each pass, the frozen result
    * is the specification over what each pass's last samples found: of each ring the words up to its
    * last sample, of the log a beginning of what it held (`LogOfPasses` says what that is). */
  lemma LosslessRound(states: seq<Sys>, steps: seq<Step>, b: nat, n: nat)
    requires IsRun(states, steps) && Undisturbed(states, steps, b, n) && states[n].core.phase == Done
    requires forall i :: 0 <= i < |states[n].passes| ==> InTime(states[n].passes[i])
    ensures var s := states[n];
            s.result == ResultOf(Trail(CapturedReads(s.passes), CapturedWords(s.passes), s.ends))
  {
    RunKeepsInv(states, steps, n);
    NotSpoiled(states, steps, b, n);
    var ps := states[n].passes;
    forall src
      ensures BC.Only(FlatWords(ps), src) == BC.Only(CapturedWords(ps), src) && FlatReads(ps) == CapturedReads(ps)
    {
      PassesCaptured(ps, src);
    }
    assert BC.Only(FlatWords(ps), BC.MemRing) == BC.Only(CapturedWords(ps), BC.MemRing);
    BC.Confluence(FlatWords(ps), CapturedWords(ps));
  }

  // ----- the cart-read log, pass after pass -----

  function Log(s: Sys): seq<Word> { CD.Held(s.cap.log) }

  /** Until the log is re-armed its words stay, and others are added behind them. */
  lemma StepGrowsLog(s: Sys, step: Step)
    requires CD.CapInv(s.cap) && Enabled(s, step) && step != Command(CD.ReArmLog)
    ensures Log(s) <= Log(Exec(s, step))
    ensures !s.cap.log.torn ==> !Exec(s, step).cap.log.torn
  {
    match step
    case Cap(cap) => CD.LogGrowsStep(s.cap, cap);
    case Command(part) => CD.LogGrowsStep(s.cap, part);
    case Tick(now, snap) =>
      TickLog(s, now, snap);
      CD.LogGrowsStep(s.cap, CD.ResetCapture);
    case _ =>
  }

  lemma TickLog(s: Sys, now: Word, snap: Probe)
    requires Enabled(s, Tick(now, snap))
    ensures var log := ExecTick(s, now, snap).cap.log; log == s.cap.log || log == CD.Do(s.cap, CD.ResetCapture).log
  {
    match s.core.phase
    case PassBegin =>
    case Capturing =>
    case Settle =>
    case _ =>
  }

  lemma {:induction false} LogGrows(states: seq<Sys>, steps: seq<Step>, m: nat, n: nat)
    requires IsRun(states, steps) && m <= n < |states|
    requires forall k :: m <= k < n ==> steps[k] != Command(CD.ReArmLog)
    ensures Log(states[m]) <= Log(states[n])
    ensures !states[m].cap.log.torn ==> !states[n].cap.log.torn
    decreases n
  {
    if m < n {
      LogGrows(states, steps, m, n - 1);
      RunKeepsInv(states, steps, n - 1);
      RunStep(states, steps, n - 1);
      StepGrowsLog(states[n - 1], steps[n - 1]);
    }
  }

  /** A pass starts to read the log from its front. */
  lemma PassStartsUntorn(s: Sys, step: Step)
    requires Inv(s) && Enabled(s, step) && s.core.phase == PassBegin && Exec(s, step).core.phase == Capturing
    ensures !Exec(s, step).cap.log.torn
  {
  }

  lemma UntornIsPrefix(s: Sys)
    requires CD.CapInv(s.cap) && !s.cap.log.torn
    ensures s.cap.logged <= Log(s)
  {
  }

  /** The re-feed, for every run: of any two passes, of one round or of two, with no re-arming of the
    * log from the start of the first to the end of the second, the log words handed over in one are
    * the first log words handed over in the other. */
  lemma LogWordsComeAgain(states: seq<Sys>, steps: seq<Step>, b: nat, m: nat, n: nat)
    requires IsRun(states, steps) && b < m <= n < |states|
    requires states[b].core.phase == PassBegin && states[b + 1].core.phase == Capturing
    requires forall k :: b < k < n ==> steps[k] != Command(CD.ReArmLog)
    ensures var first, second := states[m].cap.logged, states[n].cap.logged;
            && first <= Log(states[n]) && second <= Log(states[n])
            && (first <= second || second <= first)
  {
    RunKeepsInv(states, steps, b);
    RunStep(states, steps, b);
    PassStartsUntorn(states[b], steps[b]);
    LogGrows(states, steps, b + 1, m);
    LogGrows(states, steps, m, n);
    RunKeepsInv(states, steps, m);
    RunKeepsInv(states, steps, n);
    UntornIsPrefix(states[m]);
    UntornIsPrefix(states[n]);
    Prefixes(states[m].cap.logged, states[n].cap.logged, Log(states[m]), Log(states[n]));
  }

  lemma Prefixes(first: seq<Word>, second: seq<Word>, log: seq<Word>, later: seq<Word>)
    requires first <= log && second <= later && log <= later
    ensures first <= later && (first <= second || second <= first)
  {
  }

  /** left: what the log held when the round began. Each pass finds it there, and what the pass before
    * it found. */
  ghost predicate LogsOk(ps: seq<Pass>, log: seq<Word>, left: seq<Word>) {
    && left <= log
    && (forall i :: 0 <= i < |ps| ==> left <= ps[i].held && ps[i].held <= log)
    && (forall i, j :: 0 <= i < j < |ps| ==> ps[i].held <= ps[j].held)
  }

  lemma LongerLog(ps: seq<Pass>, log: seq<Word>, later: seq<Word>, left: seq<Word>)
    requires LogsOk(ps, log, left) && log <= later
    ensures LogsOk(ps, later, left)
  {
  }

  lemma OneMorePass(ps: seq<Pass>, p: Pass, log: seq<Word>, left: seq<Word>)
    requires LogsOk(ps, log, left) && p.held == log
    ensures LogsOk(ps + [p], log, left)
  {
  }

  lemma StepKeepsLogs(s: Sys, step: Step, left: seq<Word>)
    requires CD.CapInv(s.cap) && Enabled(s, step) && !step.Command? && LogsOk(s.passes, Log(s), left)
    ensures LogsOk(Exec(s, step).passes, Log(Exec(s, step)), left)
  {
    StepGrowsLog(s, step);
    PassesGrow(s, step);
    OneMorePass(s.passes, PassOf(s), Log(s), left);
    LongerLog(Exec(s, step).passes, Log(s), Log(Exec(s, step)), left);
  }

  lemma PassesGrow(s: Sys, step: Step)
    requires Enabled(s, step) && !step.Command?
    ensures var ps := Exec(s, step).passes; ps == s.passes || ps == [] || ps == s.passes + [PassOf(s)]
  {
  }

  /** Every pass of a round finds in the log what was left over from before the round, then what the
    * passes before it found. */
  lemma {:induction false} LogOfPasses(states: seq<Sys>, steps: seq<Step>, b: nat, n: nat)
    requires IsRun(states, steps) && Undisturbed(states, steps, b, n)
    ensures LogsOk(states[n].passes, Log(states[n]), Log(states[b]))
    decreases n
  {
    RunStep(states, steps, n - 1);
    RunKeepsInv(states, steps, n - 1);
    if n > b + 1 {
      LogOfPasses(states, steps, b, n - 1);
      StepKeepsLogs(states[n - 1], steps[n - 1], Log(states[b]));
    } else {
      BeginsEmpty(states[b], steps[b]);
    }
  }

  lemma BeginsEmpty(s: Sys, step: Step)
    requires Enabled(s, step) && !Running(s.core.phase) && Exec(s, step).core.phase == PassBegin
    ensures Exec(s, step).passes == [] && Log(Exec(s, step)) == Log(s)
    ensures Exec(s, step) == RoundBegun(s)
  {
  }
}
