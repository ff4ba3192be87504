/** What the rings and the cart-read log hold after any run, told from the list of its steps alone: which
  * transfers of the DMA arrive, and what set-up, stop, reset and re-arming do to them. */
module CaptureRuns {
  import opened Words
  import BC = BootCapture
  import CD = CaptureDrain
  import CR = CaptureRing
  import T = Traces
  import TC = TxnCapture

  // ----- one ring's channel -----

  /** What a step of a run is to the channel that fills one ring. */
  datatype Event = SetUp | Halt | Reset | Store(w: Word) | Other

  /** The channel has been claimed. */
  predicate Claimed(es: seq<Event>) { exists k :: 0 <= k < |es| && es[k].SetUp? }

  /** The last event is a reset that has an effect. */
  predicate Resets(es: seq<Event>) { es != [] && es[|es| - 1].Reset? && Claimed(es[..|es| - 1]) }

  /** The last event sets the channel going. */
  predicate Starts(es: seq<Event>) { es != [] && (es[|es| - 1].SetUp? || Resets(es)) }

  predicate NoHalt(es: seq<Event>, k: nat) { forall j :: k < j < |es| ==> !es[j].Halt? }

  /** The channel runs: the latest of set-up, effective resets and stops is not a stop. */
  predicate Running(es: seq<Event>) { exists k :: 0 <= k < |es| && Starts(es[..k + 1]) && NoHalt(es, k) }

  /** The words that it has stored since the last effective reset. */
  function Stored(es: seq<Event>): seq<Word> {
    if es == [] || Resets(es) then []
    else
      var init, last := es[..|es| - 1], es[|es| - 1];
      if last.Store? && Running(init) then Stored(init) + [last.w] else Stored(init)
  }

  lemma ClaimedStep(es: seq<Event>)
    requires es != []
    ensures Claimed(es) <==> es[|es| - 1].SetUp? || Claimed(es[..|es| - 1])
  {
    var init := es[..|es| - 1];
    if Claimed(init) {
      var k :| 0 <= k < |init| && init[k].SetUp?;
      assert es[k].SetUp?;
    }
    if Claimed(es) && !es[|es| - 1].SetUp? {
      var k :| 0 <= k < |es| && es[k].SetUp?;
      assert init[k].SetUp?;
    }
  }

  lemma HaltStep(es: seq<Event>, k: nat)
    requires k < |es| - 1
    ensures NoHalt(es, k) <==> NoHalt(es[..|es| - 1], k) && !es[|es| - 1].Halt?
  {
  }

  lemma RunningStep(es: seq<Event>)
    requires es != []
    ensures Running(es) <==> Starts(es) || (!es[|es| - 1].Halt? && Running(es[..|es| - 1]))
  {
    var n := |es| - 1;
    var init := es[..n];
    if Starts(es) { assert es[..n + 1] == es && NoHalt(es, n); }
    if !es[n].Halt? && Running(init) {
      var k :| 0 <= k < n && Starts(init[..k + 1]) && NoHalt(init, k);
      assert es[..k + 1] == init[..k + 1];
      HaltStep(es, k);
    }
    if Running(es) && !Starts(es) {
      var k :| 0 <= k <= n && Starts(es[..k + 1]) && NoHalt(es, k);
      assert es[..n + 1] == es;
      assert es[..k + 1] == init[..k + 1];
      HaltStep(es, k);
    }
  }

  // ----- the three rings and the log -----

  function CapEvent(step: CD.CapStep, src: BC.Source): Event {
    match step
    case Claim => SetUp
    case Stop => Halt
    case ResetCapture => Reset
    case OnRing(ring, part) => if ring == src && part.Write? then Store(part.w) else Other
    case _ => Other
  }

  function TxnEvent(step: TC.TxnStep): Event {
    match step
    case Claim => SetUp
    case Stop => Halt
    case OnRing(part) => if part.Reset? then Reset else if part.Write? then Store(part.w) else Other
    case _ => Other
  }

  function CapEvents(steps: seq<CD.CapStep>, src: BC.Source): (es: seq<Event>)
    ensures |es| == |steps|
  {
    seq(|steps|, i requires 0 <= i < |steps| => CapEvent(steps[i], src))
  }

  function TxnEvents(steps: seq<TC.TxnStep>): (es: seq<Event>)
    ensures |es| == |steps|
  {
    seq(|steps|, i requires 0 <= i < |steps| => TxnEvent(steps[i]))
  }

  /** The words that the log's channel has stored since it was last armed: it takes 250. */
  function LogStored(steps: seq<CD.CapStep>): seq<Word> {
    if steps == [] then []
    else
      var init, last := steps[..|steps| - 1], steps[|steps| - 1];
      if last.ReArmLog? then []
      else if last.WriteLog? && CD.Claim in init && |LogStored(init)| < BC.ALOG_TOTAL then LogStored(init) + [last.w]
      else LogStored(init)
  }

  /** A state's flags and stream are those of the channel's history. */
  ghost predicate Tells(es: seq<Event>, claimed: bool, armed: bool, stream: seq<Word>) {
    claimed == Claimed(es) && armed == Running(es) && stream == Stored(es)
  }

  lemma TellsNext(es: seq<Event>, claimed: bool, armed: bool, stream: seq<Word>,
                  claimed': bool, armed': bool, stream': seq<Word>)
    requires es != [] && Tells(es[..|es| - 1], claimed, armed, stream)
    requires var e := es[|es| - 1];
             && claimed' == (claimed || e.SetUp?)
             && armed' == (e.SetUp? || (e.Reset? && claimed) || (!e.Halt? && armed))
             && stream' == if e.Reset? && claimed then [] else if e.Store? && armed then stream + [e.w] else stream
    ensures Tells(es, claimed', armed', stream')
  {
    ClaimedStep(es);
    RunningStep(es);
  }

  /** What one step does to a boot ring and to the flags. */
  lemma CapTold(u: CD.CapState, step: CD.CapStep, src: BC.Source)
    requires CD.CanDo(u, step) && src != BC.Alog
    ensures var s, e := CD.Do(u, step), CapEvent(step, src);
            && s.claimed == (u.claimed || e.SetUp?)
            && s.armed == (e.SetUp? || (e.Reset? && u.claimed) || (!e.Halt? && u.armed))
            && CD.RingOf(s, src).hist.stream ==
                 if e.Reset? && u.claimed then [] else if e.Store? && u.armed then CD.RingOf(u, src).hist.stream + [e.w]
                 else CD.RingOf(u, src).hist.stream
  {
  }

  lemma TxnTold(u: TC.TxnState, step: TC.TxnStep)
    requires TC.CanDo(u, step)
    ensures var s, e := TC.Do(u, step), TxnEvent(step);
            && s.claimed == (u.claimed || e.SetUp?)
            && s.armed == (e.SetUp? || (e.Reset? && u.claimed) || (!e.Halt? && u.armed))
            && s.ring.hist.stream ==
                 if e.Reset? && u.claimed then [] else if e.Store? && u.armed then u.ring.hist.stream + [e.w]
                 else u.ring.hist.stream
  {
  }

  lemma LogTold(u: CD.CapState, step: CD.CapStep)
    requires CD.LogOk(u.log, u.logged) && CD.CanDo(u, step)
    ensures var was, now := CD.Held(u.log), CD.Held(CD.Do(u, step).log);
            now == if step.ReArmLog? then []
                   else if step.WriteLog? && u.claimed && |was| < BC.ALOG_TOTAL then was + [step.w]
                   else was
  {
  }

  lemma ClaimedIff(steps: seq<CD.CapStep>, src: BC.Source)
    ensures Claimed(CapEvents(steps, src)) <==> CD.Claim in steps
  {
    var es := CapEvents(steps, src);
    if CD.Claim in steps {
      var k :| 0 <= k < |steps| && steps[k] == CD.Claim;
      assert es[k].SetUp?;
    }
    if Claimed(es) {
      var k :| 0 <= k < |es| && es[k].SetUp?;
      assert steps[k] == CD.Claim;
    }
  }

  lemma StepTells(steps: seq<CD.CapStep>, u: CD.CapState, s: CD.CapState, src: BC.Source)
    requires steps != [] && src != BC.Alog
    ensures var init, last := steps[..|steps| - 1], steps[|steps| - 1];
            CD.Next(u, last, s) && Tells(CapEvents(init, src), u.claimed, u.armed, CD.RingOf(u, src).hist.stream)
            ==> Tells(CapEvents(steps, src), s.claimed, s.armed, CD.RingOf(s, src).hist.stream)
  {
    var init, last := steps[..|steps| - 1], steps[|steps| - 1];
    if CD.Next(u, last, s) && Tells(CapEvents(init, src), u.claimed, u.armed, CD.RingOf(u, src).hist.stream) {
      assert CapEvents(steps, src)[..|steps| - 1] == CapEvents(init, src);
      CapTold(u, last, src);
      TellsNext(CapEvents(steps, src), u.claimed, u.armed, CD.RingOf(u, src).hist.stream,
                s.claimed, s.armed, CD.RingOf(s, src).hist.stream);
    }
  }

  /** Which transfers arrive. After every run, each boot ring's stream is exactly the words of its write
    * steps since the last effective reset at which the channel ran. */
  lemma {:induction false} StreamAfterRun(s0: CD.CapState, steps: seq<CD.CapStep>, s: CD.CapState, src: BC.Source)
    requires CD.FreshCapture(s0) && T.Did(CD.Next, s0, steps, s) && src != BC.Alog
    ensures Tells(CapEvents(steps, src), s.claimed, s.armed, CD.RingOf(s, src).hist.stream)
    decreases |steps|
  {
    if steps != [] {
      var init, last := steps[..|steps| - 1], steps[|steps| - 1];
      var u :| T.Did(CD.Next, s0, init, u) && CD.Next(u, last, s);
      StreamAfterRun(s0, init, u, src);
      StepTells(steps, u, s, src);
    }
  }

  /** The same for the read ring. */
  lemma {:induction false} ReadStreamAfterRun(s0: TC.TxnState, steps: seq<TC.TxnStep>, s: TC.TxnState)
    requires TC.FreshTxn(s0) && T.Did(TC.Next, s0, steps, s)
    ensures Tells(TxnEvents(steps), s.claimed, s.armed, s.ring.hist.stream)
    decreases |steps|
  {
    if steps != [] {
      var init, last := steps[..|steps| - 1], steps[|steps| - 1];
      var u :| T.Did(TC.Next, s0, init, u) && TC.Next(u, last, s);
      ReadStreamAfterRun(s0, init, u);
      assert TxnEvents(steps)[..|steps| - 1] == TxnEvents(init);
      TxnTold(u, last);
      TellsNext(TxnEvents(steps), u.claimed, u.armed, u.ring.hist.stream, s.claimed, s.armed, s.ring.hist.stream);
    }
  }

  /** And the log holds the first 250 of the words stored since it was last armed. */
  lemma {:induction false} LogAfterRun(s0: CD.CapState, steps: seq<CD.CapStep>, s: CD.CapState)
    requires CD.FreshCapture(s0) && T.Did(CD.Next, s0, steps, s)
    ensures CD.Held(s.log) == LogStored(steps)
    decreases |steps|
  {
    if steps != [] {
      var init, last := steps[..|steps| - 1], steps[|steps| - 1];
      var u :| T.Did(CD.Next, s0, init, u) && CD.Next(u, last, s);
      LogAfterRun(s0, init, u);
      CD.RunKeepsCapInv(s0, init, u);
      StreamAfterRun(s0, init, u, BC.MemRing);
      ClaimedIff(init, BC.MemRing);
      LogTold(u, last);
    }
  }
}
