/** txn_capture.c: core 1 drains one more capture ring, word by word, into the read-stream
  * analyser. */
module TxnCapture {
  import opened Words
  import BI = BusIntegrity
  import BC = BootCapture
  import CR = CaptureRing
  import T = Traces

  /** claimed: txn_capture_init has run. armed: the capture machine and its DMA channel are running.
    * got: every read ever handed to the analyser. tallyFrom and ringFrom: how many there were when
    * the analyser and the ring were last reset. */
  datatype TxnState = TxnState(
    claimed: bool, armed: bool, ring: CR.RingState, tally: BI.Tally,
    got: seq<BI.Read>, tallyFrom: nat, ringFrom: nat)

  datatype TxnStep = OnRing(step: CR.Step) | ResetTally | Claim | Stop

  function ReadOf(raw: Word): BI.Read { BI.Read(BC.AddrOf(raw), BC.DataOf(raw)) }

  function ReadsOf(ws: seq<Word>): seq<BI.Read> { seq(|ws|, i requires 0 <= i < |ws| => ReadOf(ws[i])) }

  predicate CanDo(s: TxnState, step: TxnStep) {
    step.OnRing? ==> CR.CanStep(s.ring, step.step)
  }

  function RingStep(s: TxnState, ring: CR.Step): TxnState
    requires CR.CanStep(s.ring, ring)
  {
    var t := s.(ring := CR.Exec(s.ring, ring));
    if ring.Take? then
      var r := ReadOf(CR.NextWord(s.ring));
      t.(tally := BI.FeedOne(s.tally, r), got := s.got + [r])
    else if ring.Reset? then t.(armed := true, ringFrom := |s.got|)
    else t
  }

  /** A stopped channel writes nothing; before txn_capture_init a ring reset does nothing. */
  function Do(s: TxnState, step: TxnStep): TxnState
    requires CanDo(s, step)
  {
    match step
    case OnRing(ring) => if (ring.Write? && !s.armed) || (ring.Reset? && !s.claimed) then s else RingStep(s, ring)
    case ResetTally => s.(tally := BI.FeedAll([]), tallyFrom := |s.got|)
    case Claim => s.(claimed := true, armed := true)
    case Stop => s.(armed := false)
  }

  predicate Next(s: TxnState, step: TxnStep, t: TxnState) { CanDo(s, step) && t == Do(s, step) }

  predicate FreshTxn(s: TxnState) { CR.Fresh(s.ring) && s == TxnState(false, false, s.ring, BI.FeedAll([]), [], 0, 0) }

  /** The analyser is the fold of its reads since its reset; since the ring's reset they are the
    * words that the ring handed out. */
  ghost predicate TxnInv(s: TxnState) {
    && CR.Inv(s.ring) && s.tallyFrom <= |s.got| && s.ringFrom <= |s.got|
    && s.tally == BI.FeedAll(s.got[s.tallyFrom..])
    && s.got[s.ringFrom..] == ReadsOf(s.ring.hist.out)
  }

  lemma FreshTxnInv(s: TxnState)
    requires FreshTxn(s)
    ensures TxnInv(s)
  {
    CR.FreshInv(s.ring);
  }

  lemma TakeKeepsTally(s: TxnState)
    requires TxnInv(s) && CanDo(s, OnRing(CR.Take))
    ensures Do(s, OnRing(CR.Take)).tally == BI.FeedAll(Do(s, OnRing(CR.Take)).got[s.tallyFrom..])
  {
    var r := ReadOf(CR.NextWord(s.ring));
    BI.FeedAllStep(s.got[s.tallyFrom..], r);
    assert (s.got + [r])[s.tallyFrom..] == s.got[s.tallyFrom..] + [r];
  }

  lemma OneMoreRead(got: seq<BI.Read>, from: nat, ws: seq<Word>, w: Word)
    requires from <= |got| && got[from..] == ReadsOf(ws)
    ensures (got + [ReadOf(w)])[from..] == ReadsOf(ws + [w])
  {
    assert (got + [ReadOf(w)])[from..] == got[from..] + [ReadOf(w)];
  }

  lemma TakeKeepsTxnInv(s: TxnState)
    requires TxnInv(s) && CanDo(s, OnRing(CR.Take))
    ensures TxnInv(Do(s, OnRing(CR.Take)))
  {
    CR.StepKeepsInv(s.ring, CR.Take);
    TakeKeepsTally(s);
    OneMoreRead(s.got, s.ringFrom, s.ring.hist.out, CR.NextWord(s.ring));
  }

  lemma ResetKeepsTxnInv(s: TxnState)
    requires TxnInv(s)
    ensures TxnInv(Do(s, ResetTally))
    ensures CanDo(s, OnRing(CR.Reset)) ==> TxnInv(Do(s, OnRing(CR.Reset)))
  {
    assert s.got[|s.got|..] == [];
    if CanDo(s, OnRing(CR.Reset)) { CR.StepKeepsInv(s.ring, CR.Reset); }
  }

  lemma StepKeepsTxnInv(s: TxnState, step: TxnStep)
    requires TxnInv(s) && CanDo(s, step)
    ensures TxnInv(Do(s, step))
  {
    match step
    case OnRing(ring) =>
      if ring.Take? {
        TakeKeepsTxnInv(s);
      } else if ring.Reset? {
        ResetKeepsTxnInv(s);
      } else {
        CR.StepKeepsInv(s.ring, ring);
      }
    case ResetTally => ResetKeepsTxnInv(s);
    case _ =>
  }

  // ----- one drain, with what the DMA and the other core do meanwhile -----

  predicate IsEnv(step: TxnStep) {
    match step
    case OnRing(ring) => ring.Write? || ring.Reset?
    case _ => step.ResetTally? || step.Stop?
  }

  predicate AllEnv(acts: seq<TxnStep>) { forall i :: 0 <= i < |acts| ==> IsEnv(acts[i]) }

  predicate IsEnvs(env: seq<seq<TxnStep>>) { forall i :: 0 <= i < |env| ==> AllEnv(env[i]) }

  function At(env: seq<seq<TxnStep>>, i: nat): (acts: seq<TxnStep>)
    ensures IsEnvs(env) ==> AllEnv(acts)
  {
    T.At(env, i)
  }

  function Taking(env: seq<seq<TxnStep>>, k: nat): seq<TxnStep> {
    if k == 0 then [OnRing(CR.Sample)] + At(env, 0) + [OnRing(CR.Load)]
    else Taking(env, k - 1) + At(env, k) + [OnRing(CR.Take)]
  }

  lemma TakingNext(env: seq<seq<TxnStep>>, k: nat)
    ensures Taking(env, k + 1) == Taking(env, k) + At(env, k + 1) + [OnRing(CR.Take)]
  {
  }

  // ----- the statics that the firmware updates -----

  class Reader {
    const ring: CR.Ring
    const bi: BI.Analyser
    var claimed: bool
    var armed: bool
    ghost var got: seq<BI.Read>
    ghost var tallyFrom: nat
    ghost var ringFrom: nat

    ghost function Value(): TxnState
      reads this, bi, ring, ring.slots
    {
      TxnState(claimed, armed, ring.Value(), bi.Value(), got, tallyFrom, ringFrom)
    }

    ghost predicate Valid()
      reads ring
    {
      ring.Valid()
    }

    constructor ()
      ensures Valid() && FreshTxn(Value())
      ensures fresh(ring) && fresh(ring.slots) && fresh(bi)
    {
      ring := new CR.Ring(0x2000_8000);
      bi := new BI.Analyser();
      claimed, armed := false, false;
      got, tallyFrom, ringFrom := [], 0, 0;
    }

    /** `txn_capture_init`. */
    method Init()
      requires Valid()
      modifies this`claimed, this`armed
      ensures Valid() && Next(old(Value()), Claim, Value())
    {
      claimed, armed := true, true;
    }

    /** `txn_capture_reset`. */
    method Reset()
      requires Valid()
      modifies this`armed, this`ringFrom, ring
      ensures Valid() && Next(old(Value()), OnRing(CR.Reset), Value())
    {
      if claimed {
        ring.Reset();
        armed, ringFrom := true, |got|;
      }
    }

    /** `txn_capture_stop`. */
    method StopCapture()
      requires Valid()
      modifies this`armed
      ensures Valid() && Next(old(Value()), Stop, Value())
    {
      armed := false;
    }

    method ResetAnalyser()
      requires Valid()
      modifies this`tallyFrom, bi
      ensures Valid() && Next(old(Value()), ResetTally, Value())
    {
      bi.Reset();
      tallyFrom := |got|;
    }

    method DmaWrite(w: Word)
      requires Valid()
      modifies ring, ring.slots
      ensures Valid() && Next(old(Value()), OnRing(CR.Write(w)), Value())
    {
      if armed { ring.DmaWrite(w); }
    }

    method Act(act: TxnStep)
      requires Valid() && IsEnv(act)
      modifies this, bi, ring, ring.slots
      ensures Valid() && Next(old(Value()), act, Value())
    {
      match act
      case ResetTally => ResetAnalyser();
      case Stop => StopCapture();
      case OnRing(step) => if step.Write? { DmaWrite(step.w); } else { Reset(); }
    }

    method Meanwhile(acts: seq<TxnStep>)
      requires Valid() && AllEnv(acts)
      modifies this, bi, ring, ring.slots
      ensures Valid() && T.Did(Next, old(Value()), acts, Value()) && CR.SameDrain(old(ring.local), ring.local)
    {
      ghost var s0 := Value();
      for i := 0 to |acts|
        invariant Valid() && T.Did(Next, s0, acts[..i], Value()) && CR.SameDrain(s0.ring.local, ring.local)
      {
        ghost var v := Value();
        Act(acts[i]);
        T.DidOne(Next, s0, acts[..i], v, acts[i], Value());
        assert acts[..i] + [acts[i]] == acts[..i + 1];
      }
      assert acts[..|acts|] == acts;
    }

    method Begin(acts: seq<TxnStep>) returns (t: Word, cursor: Word)
      requires Valid() && AllEnv(acts) && ring.local.NoDrain?
      modifies this, bi, ring, ring.slots
      ensures Valid() && CR.InCopy(Value().ring, t, cursor)
      ensures T.Did(Next, old(Value()), [OnRing(CR.Sample)] + acts + [OnRing(CR.Load)], Value())
    {
      ghost var s0 := Value();
      t := Sample();
      T.DidOne(Next, s0, [], s0, OnRing(CR.Sample), Value());
      assert [] + [OnRing(CR.Sample)] == [OnRing(CR.Sample)];
      cursor := FirstCursor(acts, t, s0, [OnRing(CR.Sample)]);
    }

    method Sample() returns (t: Word)
      requires Valid() && ring.local.NoDrain?
      modifies ring
      ensures Valid() && Next(old(Value()), OnRing(CR.Sample), Value()) && ring.local == CR.Sampled(t, false)
    {
      t := ring.DmaTotal();
    }

    method FirstCursor(acts: seq<TxnStep>, t: Word, ghost s0: TxnState, ghost done: seq<TxnStep>) returns (cursor: Word)
      requires Valid() && AllEnv(acts) && ring.local == CR.Sampled(t, false) && T.Did(Next, s0, done, Value())
      modifies this, bi, ring, ring.slots
      ensures Valid() && CR.InCopy(Value().ring, t, cursor)
      ensures T.Did(Next, s0, done + acts + [OnRing(CR.Load)], Value())
    {
      ghost var s1 := Value();
      Meanwhile(acts);
      ghost var s2 := Value();
      cursor := ring.LoadCursor(t);
      T.DidMore(Next, s0, done, s1, acts, s2, OnRing(CR.Load), Value());
    }

    method TakeRead(t: Word, cursor: Word) returns (next: Word)
      requires Valid() && CR.InCopy(Value().ring, t, cursor) && cursor != t
      modifies this`got, bi, ring
      ensures Valid() && Next(old(Value()), OnRing(CR.Take), Value())
      ensures CR.InCopy(Value().ring, t, next) && next == Wrap32(cursor + 1)
    {
      var raw;
      raw, next := ring.TakeWord(t, cursor);
      bi.Feed(BC.AddrOf(raw), BC.DataOf(raw));
      got := got + [ReadOf(raw)];
    }

    method Turn(acts: seq<TxnStep>, t: Word, cursor: Word, ghost s0: TxnState, ghost done: seq<TxnStep>)
      returns (next: Word)
      requires Valid() && AllEnv(acts) && CR.InCopy(Value().ring, t, cursor) && cursor != t && T.Did(Next, s0, done, Value())
      modifies this, bi, ring, ring.slots
      ensures Valid() && CR.InCopy(Value().ring, t, next) && next == Wrap32(cursor + 1)
      ensures T.Did(Next, s0, done + acts + [OnRing(CR.Take)], Value())
    {
      ghost var s1 := Value();
      Meanwhile(acts);
      ghost var s2 := Value();
      next := TakeRead(t, cursor);
      T.DidMore(Next, s0, done, s1, acts, s2, OnRing(CR.Take), Value());
    }

    method End(acts: seq<TxnStep>, cursor: Word, ghost s0: TxnState, ghost done: seq<TxnStep>)
      requires Valid() && AllEnv(acts) && CR.InCopy(Value().ring, cursor, cursor) && T.Did(Next, s0, done, Value())
      modifies this, bi, ring, ring.slots
      ensures Valid() && ring.local.NoDrain? && T.Did(Next, s0, done + acts + [OnRing(CR.WriteBack)], Value())
    {
      ghost var s1 := Value();
      Meanwhile(acts);
      ghost var s2 := Value();
      ring.StoreCursor(cursor);
      T.DidMore(Next, s0, done, s1, acts, s2, OnRing(CR.WriteBack), Value());
    }

    /** The loop of `txn_capture_drain`. */
    method Copy(env: seq<seq<TxnStep>>, t: Word, first: Word, ghost s0: TxnState)
      returns (n: nat, ghost steps: seq<TxnStep>)
      requires Valid() && IsEnvs(env) && CR.InCopy(Value().ring, t, first) && T.Did(Next, s0, Taking(env, 0), Value())
      modifies this, bi, ring, ring.slots
      ensures Valid() && CR.InCopy(Value().ring, t, t)
      ensures steps == Taking(env, n) && T.Did(Next, s0, steps, Value())
    {
      var cursor := first;
      n, steps := 0, Taking(env, 0);
      while cursor != t
        invariant Valid() && CR.InCopy(Value().ring, t, cursor)
        invariant steps == Taking(env, n) && T.Did(Next, s0, steps, Value())
        decreases CR.Left(t, cursor)
      {
        CR.OneCloser(t, cursor);
        cursor := Turn(At(env, n + 1), t, cursor, s0, steps);
        steps := steps + At(env, n + 1) + [OnRing(CR.Take)];
        TakingNext(env, n);
        n := n + 1;
      }
    }

    /** `txn_capture_drain`: sample the count, load the cursor past any overrun, feed up to the count,
      * store the cursor; env[i] is what the DMA and the other core do before each of these. */
    method Drain(env: seq<seq<TxnStep>>) returns (n: nat, ghost steps: seq<TxnStep>)
      requires Valid() && IsEnvs(env) && ring.local.NoDrain?
      modifies this, bi, ring, ring.slots
      ensures Valid() && ring.local.NoDrain?
      ensures steps == Taking(env, n) + At(env, n + 1) + [OnRing(CR.WriteBack)] && T.Did(Next, old(Value()), steps, Value())
    {
      ghost var s0 := Value();
      var t, cursor := Begin(At(env, 0));
      n, steps := Copy(env, t, cursor, s0);
      End(At(env, n + 1), t, s0, steps);
      steps := steps + At(env, n + 1) + [OnRing(CR.WriteBack)];
    }
  }
}
