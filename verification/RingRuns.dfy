/** Every run of a capture ring: DMA writes, drains on core 1 and resets on core 0, interleaved in
  * any way. When the history is exact, and when the overrun guard fires. */
module RingRuns {
  import opened Words
  import opened CaptureRing

  ghost predicate IsRun(states: seq<RingState>, steps: seq<Step>) {
    && |states| == |steps| + 1 && Fresh(states[0])
    && forall i :: 0 <= i < |steps| ==> CanStep(states[i], steps[i]) && states[i + 1] == Exec(states[i], steps[i])
  }

  lemma {:induction false} RunKeepsInv(states: seq<RingState>, steps: seq<Step>, n: nat)
    requires IsRun(states, steps) && n < |states|
    ensures Inv(states[n])
  {
    if n == 0 {
      FreshInv(states[0]);
    } else {
      RunKeepsInv(states, steps, n - 1);
      StepKeepsInv(states[n - 1], steps[n - 1]);
    }
  }

  // ----- where the resets of a run fell -----

  /** A drain is in progress before step n. */
  predicate InDrain(steps: seq<Step>, n: nat)
    requires n <= |steps|
  {
    exists i :: 0 <= i < n && steps[i].Sample? && forall j :: i < j < n ==> !steps[j].WriteBack?
  }

  /** A reset fell after the latest sample before step n. */
  predicate ResetSinceSample(steps: seq<Step>, n: nat)
    requires n <= |steps|
  {
    exists k :: 0 <= k < n && steps[k].Reset? && forall j :: k < j < n ==> !steps[j].Sample?
  }

  /** The latest reset before step n fell into a drain. */
  predicate ResetInDrain(steps: seq<Step>, n: nat)
    requires n <= |steps|
  {
    exists k :: 0 <= k < n && steps[k].Reset? && InDrain(steps, k) && NoReset(steps, k, n)
  }

  predicate NoReset(steps: seq<Step>, k: nat, n: nat)
    requires n <= |steps|
  {
    forall j :: k < j < n ==> !steps[j].Reset?
  }

  /** Nothing stores the cursor after step w and before step n. */
  predicate Kept(steps: seq<Step>, w: nat, n: nat)
    requires n <= |steps|
  {
    forall j :: w < j < n ==> !steps[j].WriteBack? && !steps[j].Reset?
  }

  /** The cursor was last stored by the write-back of a drain that a reset fell into. */
  predicate StaleCursor(steps: seq<Step>, n: nat)
    requires n <= |steps|
  {
    exists w :: 0 <= w < n && steps[w].WriteBack? && ResetSinceSample(steps, w)
      && Kept(steps, w, n)
  }

  lemma InDrainStep(steps: seq<Step>, n: nat)
    requires n < |steps|
    ensures InDrain(steps, n + 1) <==> steps[n].Sample? || (!steps[n].WriteBack? && InDrain(steps, n))
  {
    if InDrain(steps, n) && !steps[n].WriteBack? {
      var i :| 0 <= i < n && steps[i].Sample? && forall j :: i < j < n ==> !steps[j].WriteBack?;
      assert forall j :: i < j < n + 1 ==> !steps[j].WriteBack?;
    }
    if InDrain(steps, n + 1) {
      var i :| 0 <= i < n + 1 && steps[i].Sample? && forall j :: i < j < n + 1 ==> !steps[j].WriteBack?;
      if i < n { assert InDrain(steps, n); }
    }
  }

  lemma ResetSinceSampleStep(steps: seq<Step>, n: nat)
    requires n < |steps|
    ensures ResetSinceSample(steps, n + 1) <==> steps[n].Reset? || (!steps[n].Sample? && ResetSinceSample(steps, n))
  {
    if ResetSinceSample(steps, n) && !steps[n].Sample? {
      var k :| 0 <= k < n && steps[k].Reset? && forall j :: k < j < n ==> !steps[j].Sample?;
      assert forall j :: k < j < n + 1 ==> !steps[j].Sample?;
    }
    if ResetSinceSample(steps, n + 1) {
      var k :| 0 <= k < n + 1 && steps[k].Reset? && forall j :: k < j < n + 1 ==> !steps[j].Sample?;
      if k < n { assert ResetSinceSample(steps, n); }
    }
  }

  lemma NoResetStep(steps: seq<Step>, k: nat, n: nat)
    requires k < n < |steps|
    ensures NoReset(steps, k, n + 1) <==> NoReset(steps, k, n) && !steps[n].Reset?
  {
  }

  lemma ResetInDrainStep(steps: seq<Step>, n: nat)
    requires n < |steps|
    ensures ResetInDrain(steps, n + 1) <==> if steps[n].Reset? then InDrain(steps, n) else ResetInDrain(steps, n)
  {
    if !steps[n].Reset? && ResetInDrain(steps, n) {
      var k :| 0 <= k < n && steps[k].Reset? && InDrain(steps, k) && NoReset(steps, k, n);
      NoResetStep(steps, k, n);
    }
    if steps[n].Reset? { assert NoReset(steps, n, n + 1); }
    if ResetInDrain(steps, n + 1) {
      var k :| 0 <= k < n + 1 && steps[k].Reset? && InDrain(steps, k) && NoReset(steps, k, n + 1);
      if k < n { NoResetStep(steps, k, n); }
    }
  }

  lemma StaleCursorStep(steps: seq<Step>, n: nat)
    requires n < |steps|
    ensures StaleCursor(steps, n + 1) <==>
      if steps[n].WriteBack? then ResetSinceSample(steps, n) else !steps[n].Reset? && StaleCursor(steps, n)
  {
    if !steps[n].WriteBack? && !steps[n].Reset? && StaleCursor(steps, n) {
      var w :| 0 <= w < n && steps[w].WriteBack? && ResetSinceSample(steps, w)
        && Kept(steps, w, n);
      assert Kept(steps, w, n + 1);
    }
    if StaleCursor(steps, n + 1) {
      var w :| 0 <= w < n + 1 && steps[w].WriteBack? && ResetSinceSample(steps, w)
        && Kept(steps, w, n + 1);
      if w < n { assert StaleCursor(steps, n); }
    }
  }

  ghost predicate FlagsAt(s: RingState, steps: seq<Step>, n: nat)
    requires n <= |steps|
  {
    && (s.local.NoDrain? <==> !InDrain(steps, n))
    && (!s.local.NoDrain? ==> (s.local.crossed <==> ResetSinceSample(steps, n)))
    && (s.dirty <==> ResetInDrain(steps, n))
    && (s.stale <==> StaleCursor(steps, n))
  }

  lemma FlagsStep(s: RingState, steps: seq<Step>, n: nat)
    requires n < |steps| && FlagsAt(s, steps, n) && CanStep(s, steps[n])
    ensures FlagsAt(Exec(s, steps[n]), steps, n + 1)
  {
    InDrainStep(steps, n);
    ResetSinceSampleStep(steps, n);
    ResetInDrainStep(steps, n);
    StaleCursorStep(steps, n);
  }

  /** The state's bookkeeping says where the resets fell. */
  lemma {:induction false} FlagsMean(states: seq<RingState>, steps: seq<Step>, n: nat)
    requires IsRun(states, steps) && n < |states|
    ensures FlagsAt(states[n], steps, n)
  {
    if n > 0 {
      FlagsMean(states, steps, n - 1);
      FlagsStep(states[n - 1], steps, n - 1);
    }
  }

  // ----- when the overrun guard fires -----

  /** Exactly when: a reset fell between this drain's sample and its load of the cursor, the sampled
    * count being above a ring; or a reset fell between the previous drain's sample and its
    * write-back, and the new count is still behind the cursor written back, within 32 bits. */
  lemma GuardFiresIff(states: seq<RingState>, steps: seq<Step>, n: nat)
    requires IsRun(states, steps) && n < |steps| && steps[n] == Load
    ensures states[n].local.Sampled?
    ensures var t, rd := states[n].local.t, states[n].rd;
            GuardFires(t, rd) <==>
              if ResetSinceSample(steps, n) then t > RING_LEN
              else StaleCursor(steps, n) && t < rd < t + (U32 - RING_LEN)
  {
    RunKeepsInv(states, steps, n);
    FlagsMean(states, steps, n);
  }

  /** The branch is dead from every reset that falls outside a drain to the next reset, and the
    * discard counter stays 0 there. */
  lemma OverrunBranchIsDead(states: seq<RingState>, steps: seq<Step>, n: nat)
    requires IsRun(states, steps) && n < |states| && !ResetInDrain(steps, n)
    ensures states[n].discarded == 0
    ensures n < |steps| && steps[n] == Load ==> !GuardFires(states[n].local.t, states[n].rd)
  {
    RunKeepsInv(states, steps, n);
    FlagsMean(states, steps, n);
    if n < |steps| && steps[n] == Load {
      RunKeepsInv(states, steps, n + 1);
    }
  }

  predicate FiredAt(states: seq<RingState>, steps: seq<Step>, k: nat)
    requires k < |states| && k < |steps|
  {
    steps[k] == Load && states[k].local.Sampled? && GuardFires(states[k].local.t, states[k].rd)
  }

  predicate FiredSinceReset(states: seq<RingState>, steps: seq<Step>, n: nat)
    requires n < |states| == |steps| + 1
  {
    exists k :: 0 <= k < n && FiredAt(states, steps, k) && forall j :: k < j < n ==> steps[j] != Reset
  }

  lemma FiredStep(states: seq<RingState>, steps: seq<Step>, n: nat)
    requires n < |steps| && |states| == |steps| + 1
    ensures FiredSinceReset(states, steps, n + 1) <==>
      FiredAt(states, steps, n) || (steps[n] != Reset && FiredSinceReset(states, steps, n))
  {
    if FiredSinceReset(states, steps, n) && steps[n] != Reset {
      var k :| 0 <= k < n && FiredAt(states, steps, k) && forall j :: k < j < n ==> steps[j] != Reset;
      assert forall j :: k < j < n + 1 ==> steps[j] != Reset;
    }
    if FiredSinceReset(states, steps, n + 1) {
      var k :| 0 <= k < n + 1 && FiredAt(states, steps, k) && forall j :: k < j < n + 1 ==> steps[j] != Reset;
      if k < n { assert FiredSinceReset(states, steps, n); }
    }
  }

  lemma {:induction false} FiredMeans(states: seq<RingState>, steps: seq<Step>, n: nat)
    requires IsRun(states, steps) && n < |states|
    ensures states[n].fired > 0 <==> FiredSinceReset(states, steps, n)
  {
    if n > 0 {
      FiredMeans(states, steps, n - 1);
      FiredStep(states, steps, n - 1);
    }
  }

  /** The discard counter is non-zero if and only if the guard fired since the last reset: two
    * firings never add up to 0 in 32 bits. */
  lemma DiscardCounterIff(states: seq<RingState>, steps: seq<Step>, n: nat)
    requires IsRun(states, steps) && n < |states|
    ensures states[n].discarded != 0 <==> FiredSinceReset(states, steps, n)
  {
    RunKeepsInv(states, steps, n);
    FiredMeans(states, steps, n);
  }

  // ----- when the history is exact -----

  /** From every reset that falls outside a drain to the next reset, whatever happened before it:
    * each word handed out was the youngest of its slot, and between drains the reader has caught
    * up with its count. */
  lemma HistoryIsExact(states: seq<RingState>, steps: seq<Step>, n: nat)
    requires IsRun(states, steps) && n < |states| && !ResetInDrain(steps, n)
    ensures Consistent(states[n].hist)
    ensures !InDrain(steps, n) ==> AtRest(states[n].hist) && states[n].rd == states[n].total
  {
    RunKeepsInv(states, steps, n);
    FlagsMean(states, steps, n);
  }

  /** After any reset, crossed or not, the next whole drain brings cursor and count together again. */
  lemma DrainsResynchronise(states: seq<RingState>, steps: seq<Step>, n: nat)
    requires IsRun(states, steps) && n < |states| && !InDrain(steps, n) && !StaleCursor(steps, n)
    ensures states[n].rd == states[n].total
  {
    RunKeepsInv(states, steps, n);
    FlagsMean(states, steps, n);
  }

  // ----- a run in which the guard fires -----

  function OneMore(states: seq<RingState>, steps: seq<Step>, step: Step): (h: (seq<RingState>, seq<Step>))
    requires IsRun(states, steps) && CanStep(states[|steps|], step)
    ensures IsRun(h.0, h.1) && states <= h.0 && h.1 == steps + [step]
    ensures h.0[|h.1|] == Exec(states[|steps|], step)
  {
    (states + [Exec(states[|steps|], step)], steps + [step])
  }

  lemma CrossedDrain(s0: RingState, w: Word) returns (states: seq<RingState>, steps: seq<Step>)
    requires Fresh(s0)
    ensures IsRun(states, steps) && states[0] == s0
    ensures steps == [Write(w), Sample, Load, Take, Reset, WriteBack]
    ensures |states[6].slots| == RING_LEN
    ensures states[6] == RingState(states[6].slots, 1, 0, 0, 0, NoDrain, true, true, 0, NOTHING)
  {
    var h := OneMore([s0], [], Write(w));
    h := OneMore(h.0, h.1, Sample);
    assert h.0[2].local == Sampled(1, false);
    h := OneMore(h.0, h.1, Load);
    h := OneMore(h.0, h.1, Take);
    h := OneMore(h.0, h.1, Step.Reset);
    h := OneMore(h.0, h.1, WriteBack);
    states, steps := h.0, h.1;
  }

  /** One word is drained; before its cursor is written back, the other core resets the ring. The
    * next drain finds nothing new, but its guard fires. */
  lemma GuardCanFire(s0: RingState, w: Word) returns (states: seq<RingState>, steps: seq<Step>)
    requires Fresh(s0)
    ensures IsRun(states, steps) && states[0] == s0
    ensures steps == [Write(w), Sample, Load, Take, Reset, WriteBack, Sample, Load]
    ensures FiredAt(states, steps, 7)
    ensures states[8].discarded == U32 - 1 - RING_LEN && states[8].hist.stream == [] == states[8].hist.out
    ensures states[8].local == Copying(0, U32 - RING_LEN, false)
  {
    states, steps := CrossedDrain(s0, w);
    var h := OneMore(states, steps, Sample);
    h := OneMore(h.0, h.1, Load);
    states, steps := h.0, h.1;
  }

  function Times(n: nat, step: Step): seq<Step> { seq(n, i requires 0 <= i < n => step) }

  /** It then hands out a whole ring, although the DMA has written nothing since the reset. */
  lemma StaleRingIsHandedOut(s0: RingState, w: Word) returns (states: seq<RingState>, steps: seq<Step>)
    requires Fresh(s0)
    ensures IsRun(states, steps) && states[0] == s0
    ensures steps == [Write(w), Sample, Load, Take, Reset, WriteBack, Sample, Load] + Times(RING_LEN, Take)
    ensures var s := states[|steps|]; |s.hist.out| == RING_LEN && s.hist.stream == []
  {
    states, steps := GuardCanFire(s0, w);
    states, steps := TakeMany(states, steps, RING_LEN);
  }

  lemma {:induction false} TakeMany(states: seq<RingState>, steps: seq<Step>, n: nat)
    returns (states': seq<RingState>, steps': seq<Step>)
    requires IsRun(states, steps) && states[|steps|].local.Copying?
    requires n <= Left(states[|steps|].local.t, states[|steps|].local.cursor)
    requires |states[|steps|].slots| == RING_LEN
    ensures IsRun(states', steps') && states' != [] && states'[0] == states[0]
    ensures steps' == steps + Times(n, Take)
    ensures var s, s' := states[|steps|], states'[|steps'|];
            |s'.hist.out| == |s.hist.out| + n && s'.hist.stream == s.hist.stream
    decreases n
  {
    if n == 0 {
      states', steps' := states, steps;
      assert steps + Times(0, Take) == steps;
    } else {
      var l := states[|steps|].local;
      var h := OneMore(states, steps, Take);
      OneCloser(l.t, l.cursor);
      states', steps' := TakeMany(h.0, h.1, n - 1);
      assert steps + Times(n, Take) == h.1 + Times(n - 1, Take);
    }
  }

  // ----- a run in which a full ring looks empty -----

  lemma {:induction false} WriteMany(states: seq<RingState>, steps: seq<Step>, w: Word, n: nat)
    returns (states': seq<RingState>, steps': seq<Step>)
    requires IsRun(states, steps) && |states[|steps|].slots| == RING_LEN
    ensures IsRun(states', steps') && states' != [] && states'[0] == states[0] && steps' == steps + Times(n, Write(w))
    ensures var s, s' := states[|steps|], states'[|steps'|];
            && |s'.slots| == RING_LEN && |s'.hist.stream| == |s.hist.stream| + n
            && s' == s.(slots := s'.slots, hist := s.hist.(stream := s'.hist.stream))
    decreases n
  {
    if n == 0 {
      states', steps' := states, steps;
      assert steps + Times(0, Write(w)) == steps;
    } else {
      var h := OneMore(states, steps, Write(w));
      states', steps' := WriteMany(h.0, h.1, w, n - 1);
      assert steps + Times(n, Write(w)) == h.1 + Times(n - 1, Write(w));
    }
  }

  lemma EmptyDrain(states: seq<RingState>, steps: seq<Step>) returns (states': seq<RingState>, steps': seq<Step>)
    requires IsRun(states, steps) && |states[|steps|].slots| == RING_LEN
    requires var s := states[|steps|];
             s.local.NoDrain? && s.rd == s.total == s.prevOffset == 0 && |s.hist.stream| == RING_LEN && s.hist.gaps == []
    ensures IsRun(states', steps') && states' != [] && states'[0] == states[0]
    ensures steps' == steps + [Sample, Load, WriteBack]
    ensures states'[|steps'|].hist == states[|steps|].hist.(gaps := [RING_LEN])
  {
    var h := OneMore(states, steps, Sample);
    assert h.0[|h.1|].local == Sampled(0, false);
    h := OneMore(h.0, h.1, Load);
    h := OneMore(h.0, h.1, WriteBack);
    states', steps' := h.0, h.1;
    assert steps' == steps + [Sample, Load, WriteBack];
  }

  /** A whole ring of words arrives, and the drain behind it hands out none of them. */
  lemma FullRingIsLost(s0: RingState, w: Word) returns (states: seq<RingState>, steps: seq<Step>)
    requires Fresh(s0)
    ensures IsRun(states, steps) && states != [] && states[0] == s0
    ensures steps == Times(RING_LEN, Write(w)) + [Sample, Load, WriteBack]
    ensures var h := states[|steps|].hist; |h.stream| == RING_LEN && h.out == [] && h.gaps == [RING_LEN]
  {
    states, steps := WriteMany([s0], [], w, RING_LEN);
    assert [] + Times(RING_LEN, Write(w)) == Times(RING_LEN, Write(w));
    states, steps := EmptyDrain(states, steps);
  }
}
