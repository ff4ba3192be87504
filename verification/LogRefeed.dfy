/** The cart-read log is not re-armed between passes or rounds, while each pass reads it from its front
  * again: what words from before a round can do to the round's result. */
module LogRefeed {
  import opened Words
  import opened BootDiag
  import opened DiagRound
  import opened RoundRuns
  import opened RoundWitness
  import BC = BootCapture
  import BD = BootDetect
  import CD = CaptureDrain
  import CR = CaptureRing

  // ----- what a round's own captures say -----

  /** Word t was captured in the round: in a ring, which every pass arms anew, or in the log behind the
    * `left` words that it held when the round began. */
  predicate New(p: Pass, left: nat, t: BC.Tagged) {
    match t.src
    case MemRing => t.raw in p.mem.stream
    case IoRing => t.raw in p.io.stream
    case Alog => left <= |p.held| && t.raw in p.held[left..]
  }

  /** Some word captured in one of these passes means phase p. */
  ghost predicate NewImplies(ps: seq<Pass>, left: nat, p: nat) {
    ps != []
    && (NewImplies(ps[..|ps| - 1], left, p) || exists t :: New(ps[|ps| - 1], left, t) && BC.WordImplies(t, p))
  }

  lemma {:induction false} NewImpliesIf(ps: seq<Pass>, left: nat, p: nat, i: nat, t: BC.Tagged)
    requires i < |ps| && New(ps[i], left, t) && BC.WordImplies(t, p)
    ensures NewImplies(ps, left, p)
  {
    if i < |ps| - 1 { NewImpliesIf(ps[..|ps| - 1], left, p, i, t); }
  }

  predicate Empty(p: Pass, left: nat) { p.mem.stream == p.io.stream == [] && |p.held| == left }

  lemma {:induction false} NothingNew(ps: seq<Pass>, left: nat, p: nat)
    requires forall i :: 0 <= i < |ps| ==> Empty(ps[i], left)
    ensures !NewImplies(ps, left, p)
  {
    if ps != [] {
      NothingNew(ps[..|ps| - 1], left, p);
      assert Empty(ps[|ps| - 1], left);
    }
  }

  /** Phase p is in the result although no word captured in the round means it. */
  ghost predicate FromBefore(s: Sys, left: nat, p: nat) { p in s.result.phaseFlags && !NewImplies(s.passes, left, p) }

  /** A read of either header address. */
  predicate HeaderRead(w: Word) { BC.AddrOf(w) == 0x4000 || BC.AddrOf(w) == 0x4001 }

  predicate HeaderWaits(log: seq<Word>) { exists i :: 0 <= i < |log| && HeaderRead(log[i]) }

  lemma HeaderMeans(w: Word, p: nat)
    ensures BC.WordImplies(BC.Tagged(BC.Alog, w), p) <==> HeaderRead(w) && p == BD.CART_SCAN
  {
  }

  // ----- which phases can come from before: every run -----

  lemma {:induction false} OnlyHas(ts: seq<BC.Tagged>, i: nat)
    requires i < |ts|
    ensures ts[i] in BC.Only(ts, ts[i].src)
  {
    var init := ts[..|ts| - 1];
    if i < |init| { OnlyHas(init, i); }
  }

  lemma {:induction false} FlatHas(ps: seq<Pass>, k: nat) returns (i: nat, j: nat)
    requires k < |FlatWords(ps)|
    ensures i < |ps| && j < |ps[i].words| && FlatWords(ps)[k] == ps[i].words[j]
  {
    var init, n := ps[..|ps| - 1], |FlatWords(ps[..|ps| - 1])|;
    if k < n { i, j := FlatHas(init, k); } else { i, j := |ps| - 1, k - n; }
  }

  /** A word that a ring handed out is one that the DMA stored there. */
  lemma FromStream(h: CR.History, w: Word)
    requires CR.Consistent(h) && w in h.out
    ensures w in h.stream
  {
    var k: nat :| k < |h.out| && h.out[k] == w;
    assert h.out[k] == h.stream[CR.Newest(k, h.readAt[k])];
  }

  /** A word handed over in a pass is new or stood in the log before the round. */
  lemma NewOrLeft(p: Pass, left: seq<Word>, t: BC.Tagged)
    requires CapOk(p) && left <= p.held && t in p.words
    ensures New(p, |left|, t) || (t.src == BC.Alog && t.raw in left)
  {
    var j: nat :| j < |p.words| && p.words[j] == t;
    OnlyHas(p.words, j);
    var ws := BC.Of(p.mem.out, p.io.out, LogPart(p), t.src);
    assert t in BC.TagAll(t.src, ws);
    assert t.raw in ws;
    match t.src
    case MemRing => FromStream(p.mem, t.raw);
    case IoRing => FromStream(p.io, t.raw);
    case Alog => LeftOrLater(p.held, left, t.raw);
  }

  lemma LeftOrLater(held: seq<Word>, left: seq<Word>, w: Word)
    requires left <= held && w in held
    ensures w in left || w in held[|left|..]
  {
    var k: nat :| k < |held| && held[k] == w;
    if k < |left| { assert left[k] == w; } else { assert held[|left|..][k - |left|] == w; }
  }

  /** Only CART_SCAN can come from before the round, and only if a header read was left in the log. */
  lemma OldPhaseIsCartScan(states: seq<Sys>, steps: seq<Step>, b: nat, n: nat, p: nat)
    requires IsRun(states, steps) && Undisturbed(states, steps, b, n) && states[n].core.phase == Done
    requires FromBefore(states[n], |Log(states[b])|, p)
    ensures p == BD.CART_SCAN && HeaderWaits(Log(states[b]))
  {
    var s, left := states[n], Log(states[b]);
    RoundResult(states, steps, b, n);
    FrozenPhasesAndAnomalies(Trail(FlatReads(s.passes), FlatWords(s.passes), s.ends), p);
    var k: nat :| k < |FlatWords(s.passes)| && BC.WordImplies(FlatWords(s.passes)[k], p);
    var t := FlatWords(s.passes)[k];
    var i, j := FlatHas(s.passes, k);
    LogOfPasses(states, steps, b, n);
    RoundIsOk(states, steps, b, n);
    AllOkMeans(s.passes, i);
    NewOrLeft(s.passes[i], left, t);
    if New(s.passes[i], |left|, t) { NewImpliesIf(s.passes, |left|, p, i, t); }
    HeaderMeans(t.raw, p);
  }

  // ----- runs in which log words come again -----

  /** Three passes in which nothing but the clock moves on the bus. */
  function Quiet(): seq<Job> {
    var j := Job([], QUIET);
    [j, j, j]
  }

  const QUIET := Probe(3579545, false, false)

  lemma Start(s0: Sys) returns (r: Run)
    requires Init(s0)
    ensures Ok(r) && r == Run([s0], []) && !Running(End(r).core.phase) && Log(End(r)) == []
  {
    r := Run([s0], []);
  }

  /** A finished round in which the rings captured nothing and every pass handed over the whole log. */
  ghost predicate OnlyTheLog(t: Sys, log: seq<Word>) {
    && t.core.phase == Done && |t.passes| == 3 && Log(t) == log
    && forall i :: 0 <= i < 3 ==>
         var p := t.passes[i]; LogPart(p) == log && p.mem.stream == p.io.stream == p.txn.stream == []
  }

  lemma LeavesOnlyTheLog(t: Sys, log: seq<Word>)
    requires RoundLeaves(t, Quiet(), log)
    ensures OnlyTheLog(t, log)
  {
    forall i | 0 <= i < 3
      ensures PassLeaves(t.passes[i], [], log)
    {
      PassesLeaveAt(t.passes, t.ends, Quiet(), log, i);
    }
  }

  /** One word, stored in the first pass, is handed over in all three passes. */
  lemma ComesAgainInTheNextPass(s0: Sys, w: Word) returns (r: Run)
    requires Init(s0)
    ensures IsRun(r.states, r.steps) && r.states[0] == s0 && OnlyTheLog(End(r), [w])
  {
    var v := Start(s0);
    var u, b := Request(v, QUIET);
    r := RunRound(u, Quiet(), Some(w));
    LeavesOnlyTheLog(End(r), [w]);
  }

  /** The same word once more in the next round, into which the DMA stores nothing. */
  lemma ComesAgainInTheNextRound(s0: Sys, w: Word) returns (r: Run, m: nat)
    requires Init(s0)
    ensures IsRun(r.states, r.steps) && r.states[0] == s0 && m < |r.states| - 1
    ensures OnlyTheLog(r.states[m], [w]) && r.states[m + 1] == Exec(r.states[m], StartRequest)
    ensures OnlyTheLog(End(r), [w])
  {
    var v := ComesAgainInTheNextPass(s0, w);
    m := |v.states| - 1;
    var u, b := Request(v, QUIET);
    r := RunRound(u, Quiet(), None);
    Listing([w]);
    LeavesOnlyTheLog(End(r), [w]);
    NextRound(v, u, r, m);
  }

  lemma NextRound(v: Run, u: Run, r: Run, m: nat)
    requires v.states <= u.states <= r.states && m + 1 == |v.states| < |u.states|
    requires u.states[m + 1] == Exec(End(v), StartRequest)
    ensures r.states[m] == End(v) && m < |r.states| - 1 && r.states[m + 1] == Exec(r.states[m], StartRequest)
  {
    assert u.states[m] == v.states[m];
  }

  /** A log that is full when the round begins takes nothing more: every pass of the round finds just
    * the old words, and no cart read of the round reaches the detector. */
  lemma FullLogHearsNothing(states: seq<Sys>, steps: seq<Step>, b: nat, n: nat, i: nat)
    requires IsRun(states, steps) && Undisturbed(states, steps, b, n) && i < |states[n].passes|
    requires |Log(states[b])| == BC.ALOG_TOTAL
    ensures states[n].passes[i].held == Log(states[b])
  {
    LogOfPasses(states, steps, b, n);
    RunKeepsInv(states, steps, n);
    LogFits(states[n]);
    NothingBehind(Log(states[b]), states[n].passes[i].held, Log(states[n]));
  }

  lemma NothingBehind(left: seq<Word>, held: seq<Word>, log: seq<Word>)
    requires left <= held && held <= log && |log| <= |left|
    ensures held == left
  {
  }

  // ----- exactly when a phase can come from before the round -----

  /** From the state in which round b begins, on to its end, with no command and no other request. */
  ghost predicate CanComeFromBefore(states: seq<Sys>, steps: seq<Step>, b: nat)
    requires b < |steps| && |states| == |steps| + 1
  {
    exists more: seq<Sys>, moreSteps: seq<Step>, n: nat, p: nat ::
      && IsRun(more, moreSteps) && states[..b + 2] <= more && steps[..b + 1] <= moreSteps
      && Undisturbed(more, moreSteps, b, n) && (forall k :: b < k < n ==> !moreSteps[k].StartRequest?)
      && more[n].core.phase == Done && FromBefore(more[n], |Log(states[b])|, p)
  }

  lemma {:induction false} FlatHasPass(ps: seq<Pass>, i: nat, t: BC.Tagged)
    requires i < |ps| && t in ps[i].words
    ensures t in FlatWords(ps)
  {
    var init := ps[..|ps| - 1];
    if i < |init| { FlatHasPass(init, i, t); }
  }

  lemma {:induction false} HasOnly(ts: seq<BC.Tagged>, t: BC.Tagged, src: BC.Source)
    requires t in BC.Only(ts, src)
    ensures t in ts
  {
    var init := ts[..|ts| - 1];
    if t in BC.Only(init, src) { HasOnly(init, t, src); }
  }

  /** A header read in the log, handed over in a pass, sets CART_SCAN. */
  lemma HandedOverIsScanned(s: Sys, i: nat, k: nat)
    requires i < |s.passes| && CapOk(s.passes[i]) && k < s.passes[i].logRd && HeaderRead(s.passes[i].held[k])
    requires s.result == ResultOf(Trail(FlatReads(s.passes), FlatWords(s.passes), s.ends))
    ensures BD.CART_SCAN in s.result.phaseFlags
  {
    var p := s.passes[i];
    var t := BC.Tagged(BC.Alog, p.held[k]);
    assert BC.TagAll(BC.Alog, LogPart(p))[k] == t;
    HasOnly(p.words, t, BC.Alog);
    FlatHasPass(s.passes, i, t);
    HeaderMeans(p.held[k], BD.CART_SCAN);
    FrozenPhasesAndAnomalies(Trail(FlatReads(s.passes), FlatWords(s.passes), s.ends), BD.CART_SCAN);
  }

  lemma QuietIsEmpty(s: Sys, log: seq<Word>, p: nat)
    requires RoundLeaves(s, Quiet(), log)
    ensures !NewImplies(s.passes, |log|, p)
  {
    forall i | 0 <= i < 3
      ensures Empty(s.passes[i], |log|)
    {
      PassesLeaveAt(s.passes, s.ends, Quiet(), log, i);
    }
    NothingNew(s.passes, |log|, p);
  }

  /** The run up to the tick that begins the round. */
  lemma UpTo(states: seq<Sys>, steps: seq<Step>, n: nat) returns (r: Run)
    requires IsRun(states, steps) && n < |states|
    ensures r == Run(states[..n + 1], steps[..n]) && Ok(r) && End(r) == states[n]
  {
    r := Run(states[..n + 1], steps[..n]);
    forall i | 0 <= i < n
      ensures Next(r.states[i], r.steps[i], r.states[i + 1])
    {
      RunStep(states, steps, i);
    }
  }

  lemma ScannedAtTheEnd(states: seq<Sys>, steps: seq<Step>, b: nat, n: nat, log: seq<Word>)
    requires IsRun(states, steps) && Undisturbed(states, steps, b, n)
    requires RoundLeaves(states[n], Quiet(), log) && HeaderWaits(log)
    ensures FromBefore(states[n], |log|, BD.CART_SCAN)
  {
    RoundIsOk(states, steps, b, n);
    ScannedFromBefore(states[n], log);
  }

  lemma ScannedFromBefore(s: Sys, log: seq<Word>)
    ensures RoundLeaves(s, Quiet(), log) && HeaderWaits(log) && RoundOk(s) ==> FromBefore(s, |log|, BD.CART_SCAN)
  {
    if RoundLeaves(s, Quiet(), log) && HeaderWaits(log) && RoundOk(s) { Scanned(s, log); }
  }

  lemma Scanned(s: Sys, log: seq<Word>)
    requires RoundLeaves(s, Quiet(), log) && HeaderWaits(log) && RoundOk(s)
    ensures FromBefore(s, |log|, BD.CART_SCAN)
  {
    var k: nat :| k < |log| && HeaderRead(log[k]);
    AllOkMeans(s.passes, 0);
    PassesLeaveAt(s.passes, s.ends, Quiet(), log, 0);
    HandedOverIsScanned(s, 0, k);
    QuietIsEmpty(s, log, BD.CART_SCAN);
  }

  lemma LeftoverComesBack(states: seq<Sys>, steps: seq<Step>, b: nat)
    requires IsRun(states, steps) && Undisturbed(states, steps, b, b + 1) && HeaderWaits(Log(states[b]))
    ensures CanComeFromBefore(states, steps, b)
  {
    var r := UpTo(states, steps, b + 1);
    RoundIsReady(states, steps, b);
    var u := RunRound(r, Quiet(), None);
    Listing(Log(states[b]));
    StaysUndisturbed(r, u, b);
    ScannedAtTheEnd(u.states, u.steps, b, |u.states| - 1, Log(states[b]));
  }

  lemma RoundIsReady(states: seq<Sys>, steps: seq<Step>, b: nat)
    requires IsRun(states, steps) && Undisturbed(states, steps, b, b + 1)
    ensures var s := states[b + 1];
            && AtPass(s) && s.core.pass == 0 && s.passes == [] && s.ends == []
            && Log(s) == Log(states[b]) && |Log(s)| <= BC.ALOG_TOTAL
  {
    RunStep(states, steps, b);
    RunKeepsInv(states, steps, b);
    BeginsReady(states[b], steps[b]);
  }

  lemma BeginsReady(s: Sys, step: Step)
    requires CD.CapInv(s.cap) && Enabled(s, step)
    requires !Running(s.core.phase) && Exec(s, step).core.phase == PassBegin
    ensures var t := Exec(s, step);
            && AtPass(t) && t.core.pass == 0 && t.passes == [] && t.ends == []
            && Log(t) == Log(s) && |Log(t)| <= BC.ALOG_TOTAL
  {
    BeginsEmpty(s, step);
    LogFits(s);
  }

  lemma LogFits(s: Sys)
    requires CD.CapInv(s.cap)
    ensures |Log(s)| <= BC.ALOG_TOTAL
  {
  }

  /** Some phase of a round's result can come from before the round if and only if, when the round
    * begins, the log still holds a read of $4000 or $4001. */
  lemma OldPhaseIff(states: seq<Sys>, steps: seq<Step>, b: nat)
    requires IsRun(states, steps) && Undisturbed(states, steps, b, b + 1)
    ensures CanComeFromBefore(states, steps, b) <==> HeaderWaits(Log(states[b]))
  {
    if HeaderWaits(Log(states[b])) {
      LeftoverComesBack(states, steps, b);
    }
    if CanComeFromBefore(states, steps, b) {
      var more: seq<Sys>, moreSteps: seq<Step>, n: nat, p: nat :|
        && IsRun(more, moreSteps) && states[..b + 2] <= more && steps[..b + 1] <= moreSteps
        && Undisturbed(more, moreSteps, b, n) && (forall k :: b < k < n ==> !moreSteps[k].StartRequest?)
        && more[n].core.phase == Done && FromBefore(more[n], |Log(states[b])|, p);
      assert more[b] == states[..b + 2][b];
      OldPhaseIsCartScan(more, moreSteps, b, n, p);
    }
  }
}
