/** A run of a whole round whose report does not show every finding. */
module OverflowRun {
  import opened Words
  import opened BootDiag
  import opened DiagRound
  import opened RoundRuns
  import opened RoundWitness
  import opened Report
  import Causes
  import TextBuffer
  import BC = BootCapture
  import BI = BusIntegrity
  import CD = CaptureDrain
  import CR = CaptureRing
  import TC = TxnCapture

  /** Read words of a floating bus: $FF at address i. */
  function FloatingWords(): seq<Word> { seq(64, i requires 0 <= i < 64 => 0xFF_0000 + i) }

  lemma FloatingWordsRead()
    ensures TC.ReadsOf(FloatingWords()) == FloatingReads(64)
  {
    forall i | 0 <= i < 64
      ensures TC.ReadsOf(FloatingWords())[i] == FloatingReads(64)[i]
    {
      ReadOfFloating(i);
    }
  }

  lemma ReadOfFloating(i: nat)
    requires i < 64
    ensures TC.ReadOf(0xFF_0000 + i) == BI.Read(i, 0xFF)
  {
  }

  /** The clock is off-frequency in the first pass and absent in the others; in the second the bus
    * floats. */
  function Jobs(): seq<Job> {
    [Job([], Probe(5000000, true, true)), Job(FloatingWords(), Probe(0, true, true)), Job([], Probe(0, true, true))]
  }

  // ----- what a pass hands over that samples its read ring once, in time -----

  lemma OneSample(p: Pass, ws: seq<Word>, log: seq<Word>)
    requires TxnOk(p) && PassLeaves(p, ws, log) && |ws| < CR.RING_LEN
    ensures p.got == TC.ReadsOf(ws)
  {
    var h := p.txn;
    assert h.gaps[..0] == [];
    assert CR.Sum(h.gaps) == |ws|;
    CR.LosslessDrain(h);
    assert h.stream[..|ws|] == ws;
  }

  lemma {:induction false} NoWords(ts: seq<BC.Tagged>)
    requires BC.Merges(ts, [], [], [])
    ensures ts == []
  {
    if ts != [] {
      var last := ts[|ts| - 1];
      assert last in BC.Only(ts, last.src);
    }
  }

  lemma NothingHandedOver(p: Pass, ws: seq<Word>)
    requires CapOk(p) && PassLeaves(p, ws, [])
    ensures p.words == []
  {
    NoWords(p.words);
  }

  lemma FlatNext(ps: seq<Pass>, n: nat)
    requires n < |ps|
    ensures FlatReads(ps[..n + 1]) == FlatReads(ps[..n]) + ps[n].got
    ensures FlatWords(ps[..n + 1]) == FlatWords(ps[..n]) + ps[n].words
  {
    FlatStep(ps[..n], ps[n]);
    assert ps[..n + 1] == ps[..n] + [ps[n]];
  }

  lemma FlatThree(ps: seq<Pass>)
    requires |ps| == 3
    ensures FlatReads(ps) == [] + ps[0].got + ps[1].got + ps[2].got && FlatReads(ps[..1]) == [] + ps[0].got
    ensures FlatReads(ps[..2]) == [] + ps[0].got + ps[1].got && ps[..3] == ps
    ensures FlatWords(ps) == [] + ps[0].words + ps[1].words + ps[2].words
  {
    FlatNext(ps, 0);
    FlatNext(ps, 1);
    FlatNext(ps, 2);
    assert ps[..3] == ps;
  }

  lemma JobDone(s: Sys, jobs: seq<Job>, i: nat)
    requires RoundLeaves(s, jobs, []) && AllOk(s.passes) && i < 3 && |jobs[i].ws| < CR.RING_LEN
    ensures s.passes[i].got == TC.ReadsOf(jobs[i].ws) && s.passes[i].words == []
  {
    AllOkMeans(s.passes, i);
    PassesLeaveAt(s.passes, s.ends, jobs, [], i);
    OneSample(s.passes[i], jobs[i].ws, []);
    NothingHandedOver(s.passes[i], jobs[i].ws);
  }

  lemma NoReads()
    ensures TC.ReadsOf([]) == []
  {
  }

  lemma OnlyTheMiddle<T>(a: seq<T>, b: seq<T>, c: seq<T>)
    requires a == c == []
    ensures [] + a + b + c == b && [] + a + b == b && [] + a == []
  {
  }

  lemma JobsDone(s: Sys, jobs: seq<Job>)
    requires RoundLeaves(s, jobs, []) && AllOk(s.passes)
    requires jobs[0].ws == jobs[2].ws == [] && |jobs[1].ws| < CR.RING_LEN
    ensures s.passes[..3] == s.passes && FlatReads(s.passes) == TC.ReadsOf(jobs[1].ws)
    ensures FlatReads(s.passes[..2]) == TC.ReadsOf(jobs[1].ws) && FlatReads(s.passes[..1]) == []
    ensures FlatWords(s.passes) == []
  {
    JobDone(s, jobs, 0);
    JobDone(s, jobs, 1);
    JobDone(s, jobs, 2);
    NoReads();
    FlatThree(s.passes);
    OnlyTheMiddle(s.passes[0].got, s.passes[1].got, s.passes[2].got);
    OnlyTheMiddle(s.passes[0].words, s.passes[1].words, s.passes[2].words);
  }

  lemma CountOf(ps: seq<Pass>)
    requires |FlatReads(ps)| < U32
    ensures ReadCount(ps) == |FlatReads(ps)|
  {
    BI.CountsExactly(FlatReads(ps));
  }

  lemma EndFound(s: Sys, i: nat, count: nat)
    requires RoundLeaves(s, Jobs(), []) && i < 3 && |FlatReads(s.passes[..i + 1])| == count < U32
    ensures |s.ends| == 3 && s.ends[i] == PassEnd(Jobs()[i].snap, count)
  {
    ClassifiedAt(s.passes, s.ends, Jobs(), [], i);
    CountOf(s.passes[..i + 1]);
  }

  lemma ThreeEnds(ends: seq<PassEnd>)
    requires |ends| == 3
    ensures ends[0] == FirstPass() && ends[1] == LaterPass() && ends[2] == LaterPass() ==> ends == FloatingTrail().ends
  {
  }

  lemma FloatingEndsFound(s: Sys)
    requires RoundLeaves(s, Jobs(), []) && |FlatReads(s.passes[..1])| == 0
    requires |FlatReads(s.passes[..2])| == |FlatReads(s.passes[..3])| == 64
    ensures s.ends == FloatingTrail().ends
  {
    EndFound(s, 0, 0);
    EndFound(s, 1, 64);
    EndFound(s, 2, 64);
    ThreeEnds(s.ends);
  }

  /** From the start, one round that freezes the floating bus's trail; its report cuts the causes. */
  lemma ARoundOverflows(s0: Sys) returns (r: Run)
    requires Init(s0)
    ensures IsRun(r.states, r.steps) && r.states[0] == s0
    ensures End(r).core.phase == Done && End(r).result == ResultOf(FloatingTrail())
    ensures var res := End(r).result;
            Bullets(TextBuffer.SplitLines(Cut(Causes.CausesText(res), CAUSES_LEN - 1))) != Bullets(Causes.Lines(res))
  {
    var v := Run([s0], []);
    var u, b := Request(v, Jobs()[0].snap);
    r := RunRound(u, Jobs(), None);
    Listing([]);
    StaysUndisturbed(u, r, b);
    FloatingResult(r, b, FloatingTrail());
    ARoundCanOverflow();
  }

  lemma FloatingResult(r: Run, b: nat, floating: Trail)
    requires Ok(r) && Undisturbed(r.states, r.steps, b, |r.states| - 1)
    requires RoundLeaves(End(r), Jobs(), []) && floating == FloatingTrail()
    ensures End(r).result == ResultOf(floating)
  {
    RoundIsOk(r.states, r.steps, b, |r.states| - 1);
    FloatingIfOk(End(r), floating);
  }

  lemma FloatingIfOk(s: Sys, floating: Trail)
    ensures RoundLeaves(s, Jobs(), []) && RoundOk(s) && floating == FloatingTrail() ==> s.result == ResultOf(floating)
  {
    if RoundLeaves(s, Jobs(), []) && RoundOk(s) && floating == FloatingTrail() { FloatingTrailFound(s); }
  }

  lemma FloatingTrailFound(s: Sys)
    requires RoundLeaves(s, Jobs(), []) && RoundOk(s)
    ensures s.result == ResultOf(FloatingTrail())
  {
    JobsDone(s, Jobs());
    FloatingWordsRead();
    FloatingEndsFound(s);
  }
}
