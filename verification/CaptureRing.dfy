/** The lock-free capture rings of boot_capture.c and txn_capture.c. The DMA writes the
  * ring and never waits; the reader rebuilds an unbounded count from the masked write
  * address and hands words out behind it. */
module CaptureRing {
  import opened Words

  const RING_LEN := 4096
  const RING_BYTES := 16384

  // ----- what may be said about a ring's whole history -----

  /** stream: every word the DMA wrote. out: every word handed out. readAt[k]: how many words
    * had been written when out[k] was read. gaps: words written between successive samples of
    * the write address. */
  datatype History = History(stream: seq<Word>, out: seq<Word>, readAt: seq<nat>, gaps: seq<nat>)

  function Sum(xs: seq<nat>): nat {
    if xs == [] then 0 else Sum(xs[..|xs| - 1]) + xs[|xs| - 1]
  }

  /** What the reader's count makes of the gaps. */
  function Tracked(gaps: seq<nat>): nat {
    if gaps == [] then 0 else Tracked(gaps[..|gaps| - 1]) + gaps[|gaps| - 1] % RING_LEN
  }

  /** Whole laps of the ring that fell between two samples. */
  function Laps(gaps: seq<nat>): nat {
    if gaps == [] then 0 else Laps(gaps[..|gaps| - 1]) + gaps[|gaps| - 1] / RING_LEN
  }

  /** Of the first `written` stream words, the youngest one stored in the slot of word k. */
  function Newest(k: nat, written: nat): (j: nat)
    requires k < written
    ensures k <= j < written <= j + RING_LEN && j % RING_LEN == k % RING_LEN
  {
    SlotOfNewest(k, (written - 1 - k) / RING_LEN);
    k + RING_LEN * ((written - 1 - k) / RING_LEN)
  }

  lemma SlotOfNewest(k: nat, laps: nat)
    ensures (k + RING_LEN * laps) % RING_LEN == k % RING_LEN
  {
  }

  /** What every ring keeps, whatever the DMA and the reader do and however they interleave. */
  ghost predicate Consistent(h: History) {
    && |h.readAt| == |h.out|
    && Sum(h.gaps) <= |h.stream|
    && (forall k :: 0 <= k < |h.out| ==>
          k < h.readAt[k] <= |h.stream| && h.out[k] == h.stream[Newest(k, h.readAt[k])])
  }

  /** At rest the reader has caught up with its own count. */
  ghost predicate AtRest(h: History) {
    Consistent(h) && |h.out| == Tracked(h.gaps)
  }

  /** Aliasing: the count falls behind the truth by whole rings, one for every lap that fell
    * between two samples, and by nothing else. */
  lemma {:induction false} AliasingByWholeLaps(gaps: seq<nat>)
    ensures Sum(gaps) == Tracked(gaps) + RING_LEN * Laps(gaps)
    ensures Tracked(gaps) % RING_LEN == Sum(gaps) % RING_LEN
  {
    if gaps != [] {
      var init := gaps[..|gaps| - 1];
      AliasingByWholeLaps(init);
    }
    SlotOfNewest(Tracked(gaps), Laps(gaps));
  }

  lemma {:induction false} NoLapsIff(gaps: seq<nat>)
    ensures Laps(gaps) == 0 <==> forall i :: 0 <= i < |gaps| ==> gaps[i] < RING_LEN
  {
    if gaps != [] {
      var init := gaps[..|gaps| - 1];
      NoLapsIff(init);
      assert forall i :: 0 <= i < |init| ==> gaps[i] == init[i];
    }
  }

  /** The count is exact if and only if fewer than 4096 words arrived between any two samples. */
  lemma CountExactIff(h: History)
    requires AtRest(h)
    ensures |h.out| == Sum(h.gaps) <==> forall i :: 0 <= i < |h.gaps| ==> h.gaps[i] < RING_LEN
  {
    AliasingByWholeLaps(h.gaps);
    NoLapsIff(h.gaps);
  }

  ghost predicate OnTime(h: History)
    requires |h.readAt| == |h.out|
  {
    forall k :: 0 <= k < |h.out| ==> h.readAt[k] <= k + RING_LEN
  }

  lemma NewestIsItselfIff(k: nat, written: nat)
    requires k < written
    ensures Newest(k, written) == k <==> written <= k + RING_LEN
  {
  }

  /** Exactly once and in order: if no word was read after 4096 newer ones, what was handed out
    * is the beginning of the stream; word k stood in its slot if and only if its read was on time. */
  lemma ExactlyOnceInOrder(h: History)
    requires Consistent(h)
    ensures OnTime(h) ==> |h.out| <= |h.stream| && h.out == h.stream[..|h.out|]
    ensures forall k :: 0 <= k < |h.out| ==> (Newest(k, h.readAt[k]) == k <==> h.readAt[k] <= k + RING_LEN)
  {
    forall k | 0 <= k < |h.out|
      ensures Newest(k, h.readAt[k]) == k <==> h.readAt[k] <= k + RING_LEN
    {
      NewestIsItselfIff(k, h.readAt[k]);
    }
    if |h.out| > 0 {
      assert |h.out| - 1 < h.readAt[|h.out| - 1] <= |h.stream|;
    }
  }

  /** With both conditions nothing that was sampled is missing. */
  lemma LosslessDrain(h: History)
    requires AtRest(h) && OnTime(h)
    requires forall i :: 0 <= i < |h.gaps| ==> h.gaps[i] < RING_LEN
    ensures h.out == h.stream[..Sum(h.gaps)]
  {
    CountExactIff(h);
    ExactlyOnceInOrder(h);
  }

  /** The bound is strict: 4096 words between two samples look like none, and the reader never
    * makes up for them. */
  lemma FullRingLooksEmpty(h: History, i: nat)
    requires AtRest(h) && i < |h.gaps| && h.gaps[i] >= RING_LEN
    ensures |h.out| + RING_LEN <= Sum(h.gaps)
    ensures h.gaps == [RING_LEN] ==> h.out == []
  {
    AliasingByWholeLaps(h.gaps);
    NoLapsIff(h.gaps);
    if h.gaps == [RING_LEN] {
      assert h.gaps[..0] == [];
    }
  }

  // ----- 32-bit arithmetic of the reader -----

  lemma WrapSlot(k: nat)
    ensures Wrap32(k) % RING_LEN == k % RING_LEN
  {
    assert k == U32 * (k / U32) + Wrap32(k);
    SlotOfNewest(Wrap32(k), 0x10_0000 * (k / U32));
  }

  lemma GapDelta(sampled: nat, now: nat)
    requires sampled <= now
    ensures (now % RING_LEN - sampled % RING_LEN) % RING_LEN == (now - sampled) % RING_LEN
  {
  }

  /** The masked write address gives the slot index, and the next slot after a transfer. */
  lemma OffsetOf(n: nat)
    ensures 4 * (n % RING_LEN) % RING_BYTES / 4 == n % RING_LEN
    ensures (4 * (n % RING_LEN) + 4) % RING_BYTES == 4 * ((n + 1) % RING_LEN)
  {
  }

  /** Words written since the last sample, and the history after one more sample. */
  function Gap(h: History): nat {
    if Sum(h.gaps) <= |h.stream| then |h.stream| - Sum(h.gaps) else 0
  }

  function AddSample(h: History): History {
    h.(gaps := h.gaps + [Gap(h)])
  }

  lemma SampleCounts(h: History)
    requires Sum(h.gaps) <= |h.stream|
    ensures var g := AddSample(h).gaps;
            && Sum(g) == |h.stream|
            && Tracked(g) == Tracked(h.gaps) + Gap(h) % RING_LEN
            && Tracked(g) <= |h.stream|
            && Wrap32(Wrap32(Tracked(h.gaps)) + Gap(h) % RING_LEN) == Wrap32(Tracked(g))
            && (|h.stream| % RING_LEN - Sum(h.gaps) % RING_LEN) % RING_LEN == Gap(h) % RING_LEN
  {
    var g := AddSample(h).gaps;
    assert g[..|g| - 1] == h.gaps;
    AliasingByWholeLaps(g);
    WrapAdd(Tracked(h.gaps), Gap(h) % RING_LEN);
    GapDelta(Sum(h.gaps), |h.stream|);
  }

  /** How far the 32-bit count t is ahead of a cursor. */
  function Left(t: Word, cursor: Word): (n: nat)
    ensures n == 0 <==> t == cursor
  {
    var distance: int := t as int - cursor as int;
    Wrap32(distance)
  }

  lemma SampledDistance(tracked: nat, delta: nat, total: Word, total': Word)
    requires delta < RING_LEN && total == Wrap32(tracked) && total' == Wrap32(tracked + delta)
    ensures Left(total', total) < RING_LEN
  {
    WrapDistance(tracked, delta);
  }

  /** What the reader computes from two masked addresses is its count of the longer history. */
  lemma SampleSlots(h: History, total: Word, prev: nat, cur: nat, total': Word)
    requires Sum(h.gaps) <= |h.stream| && total == Wrap32(Tracked(h.gaps))
    requires prev == Sum(h.gaps) % RING_LEN && cur == |h.stream| % RING_LEN
    requires total' == Wrap32(total + (cur - prev) % RING_LEN)
    ensures total' == Wrap32(Tracked(AddSample(h).gaps)) && Left(total', total) < RING_LEN
    ensures cur == Sum(AddSample(h).gaps) % RING_LEN && Sum(AddSample(h).gaps) <= |h.stream|
  {
    SampleCounts(h);
    SampledDistance(Tracked(h.gaps), Gap(h) % RING_LEN, total, total');
  }

  lemma NoOverrun(target: nat, done: nat, discarded: Word)
    requires done <= target < done + RING_LEN
    ensures OverrunGuard(Wrap32(target), Wrap32(done), discarded) == (Wrap32(done), discarded)
  {
    WrapDistance(done, target - done);
  }

  // ----- the ring as a state machine -----
  //
  // The DMA writes at any time. Core 1 drains: it samples the count, loads the cursor, hands out
  // words and writes the cursor back. Core 0 may reset the ring between any two of these.

  /** The drain in progress: `t` is the sampled count, `crossed` says that a reset fell since. */
  datatype Local = NoDrain | Sampled(t: Word, crossed: bool) | Copying(t: Word, cursor: Word, crossed: bool)

  /** stale: the cursor was written back by a drain that a reset fell into. dirty: the last reset
    * fell into a drain. fired: how often the overrun guard fired since the last reset. The history
    * is that since the last reset. */
  datatype RingState = RingState(
    slots: seq<Word>, rd: Word, total: Word, prevOffset: nat, discarded: Word,
    local: Local, stale: bool, dirty: bool, fired: nat, hist: History)

  datatype Step = Write(w: Word) | Sample | Load | Take | WriteBack | Reset

  const NOTHING := History([], [], [], [])

  /** Armed for the first time, whatever the block holds. */
  predicate Fresh(s: RingState) {
    |s.slots| == RING_LEN && s == RingState(s.slots, 0, 0, 0, 0, NoDrain, false, false, 0, NOTHING)
  }

  /** A cursor more than a ring behind the count moves up to one ring behind it, and what it skips
    * is counted: the new cursor and discard count. */
  function OverrunGuard(total: Word, rd: Word, discarded: Word): (Word, Word) {
    var lag := Left(total, rd);
    if lag > RING_LEN then (Wrap32(total - RING_LEN), Wrap32(discarded + (lag - RING_LEN))) else (rd, discarded)
  }

  predicate GuardFires(total: Word, rd: Word) { Left(total, rd) > RING_LEN }

  predicate CanStep(s: RingState, step: Step) {
    |s.slots| == RING_LEN &&
    match step
    case Write(_) => true
    case Sample => s.local.NoDrain?
    case Load => s.local.Sampled?
    case Take => s.local.Copying? && s.local.cursor != s.local.t
    case WriteBack => s.local.Copying? && s.local.cursor == s.local.t
    case Reset => true
  }

  function WriteStep(s: RingState, w: Word): RingState
    requires |s.slots| == RING_LEN
  {
    s.(slots := s.slots[|s.hist.stream| % RING_LEN := w], hist := s.hist.(stream := s.hist.stream + [w]))
  }

  function SampleStep(s: RingState): RingState {
    var offset := |s.hist.stream| % RING_LEN;
    var t := Wrap32(s.total + (offset - s.prevOffset) % RING_LEN);
    s.(total := t, prevOffset := offset, local := Sampled(t, false), hist := AddSample(s.hist))
  }

  function LoadStep(s: RingState): RingState
    requires s.local.Sampled?
  {
    var (first, disc) := OverrunGuard(s.local.t, s.rd, s.discarded);
    s.(discarded := disc, local := Copying(s.local.t, first, s.local.crossed),
       fired := s.fired + if GuardFires(s.local.t, s.rd) then 1 else 0)
  }

  /** The word that the next Take hands out. */
  function NextWord(s: RingState): Word
    requires s.local.Copying? && |s.slots| == RING_LEN
  {
    s.slots[s.local.cursor % RING_LEN]
  }

  function TakeStep(s: RingState): RingState
    requires s.local.Copying? && |s.slots| == RING_LEN
  {
    s.(local := s.local.(cursor := Wrap32(s.local.cursor + 1)),
       hist := s.hist.(out := s.hist.out + [NextWord(s)], readAt := s.hist.readAt + [|s.hist.stream|]))
  }

  function WriteBackStep(s: RingState): RingState
    requires s.local.Copying?
  {
    s.(rd := s.local.cursor, stale := s.local.crossed, local := NoDrain)
  }

  function ResetStep(s: RingState): RingState {
    var local := match s.local
                 case NoDrain => NoDrain
                 case Sampled(t, _) => Sampled(t, true)
                 case Copying(t, cursor, _) => Copying(t, cursor, true);
    s.(rd := 0, total := 0, prevOffset := 0, discarded := 0, local := local,
       stale := false, dirty := !s.local.NoDrain?, fired := 0, hist := NOTHING)
  }

  function Exec(s: RingState, step: Step): RingState
    requires CanStep(s, step)
  {
    match step
    case Write(w) => WriteStep(s, w)
    case Sample => SampleStep(s)
    case Load => LoadStep(s)
    case Take => TakeStep(s)
    case WriteBack => WriteBackStep(s)
    case Reset => ResetStep(s)
  }

  // ----- what every step keeps -----

  /** The ring holds the newest words of the stream, each in its slot. */
  ghost predicate HoldsNewest(slots: seq<Word>, stream: seq<Word>) {
    && |slots| == RING_LEN
    && forall j :: 0 <= j < |stream| <= j + RING_LEN ==> slots[j % RING_LEN] == stream[j]
  }

  lemma WriteKeepsNewest(slots: seq<Word>, stream: seq<Word>, w: Word)
    requires HoldsNewest(slots, stream)
    ensures HoldsNewest(slots[|stream| % RING_LEN := w], stream + [w])
  {
    var n := |stream|;
    forall j | 0 <= j < n + 1 <= j + RING_LEN
      ensures slots[n % RING_LEN := w][j % RING_LEN] == (stream + [w])[j]
    {
      if j < n {
        assert j % RING_LEN != n % RING_LEN;
        assert slots[j % RING_LEN] == stream[j];
      }
    }
  }

  /** The shared count is what 32 bits keep of the history's. */
  ghost predicate CountOk(s: RingState) {
    && s.total == Wrap32(Tracked(s.hist.gaps))
    && s.prevOffset == Sum(s.hist.gaps) % RING_LEN
    && Sum(s.hist.gaps) <= |s.hist.stream|
  }

  /** How far cursor and count can be apart, in and out of a drain. After a reset has fallen into a
    * drain, one of the two still stands for the words before it. */
  ghost predicate CursorOk(s: RingState) {
    && (s.stale ==> s.dirty)
    && match s.local
       case NoDrain => if s.stale then s.hist.gaps == [] else s.rd == s.total
       case Sampled(t, crossed) =>
         (if crossed then s.hist.gaps == [] && s.rd == 0 && !s.stale && s.dirty
             else t == s.total && if s.stale then t < RING_LEN else Left(t, s.rd) < RING_LEN)
       case Copying(t, cursor, crossed) =>
         && Left(t, cursor) <= RING_LEN
         && (if crossed then s.hist.gaps == [] && s.rd == 0 && !s.stale && s.dirty else t == s.total)
  }

  /** What the discard counter can be. */
  ghost predicate DiscardOk(s: RingState) {
    && (s.discarded == 0 <==> s.fired == 0)
    && (!s.dirty ==> s.fired == 0)
    && match s.local
       case NoDrain => s.stale ==> OneFiring(s, s.rd)
       case Sampled(t, crossed) => if crossed then s.fired == 0 else s.stale ==> OneFiring(s, s.rd)
       case Copying(t, _, crossed) => crossed ==> OneFiring(s, t)
  }

  /** At most the crossed drain itself has fired, with the count t that it then writes back. */
  predicate OneFiring(s: RingState, t: Word) { s.fired == 0 || (s.fired == 1 && s.discarded == t - RING_LEN > 0) }

  /** After a reset that fell outside any drain (or none at all), the history is exact. */
  ghost predicate HistoryOk(s: RingState) {
    !s.dirty ==>
      && Consistent(s.hist)
      && !s.stale
      && match s.local
         case NoDrain => |s.hist.out| == Tracked(s.hist.gaps)
         case Sampled(_, crossed) =>
           && !crossed && s.rd == Wrap32(|s.hist.out|)
           && |s.hist.out| <= Tracked(s.hist.gaps) < |s.hist.out| + RING_LEN && Tracked(s.hist.gaps) <= |s.hist.stream|
         case Copying(_, cursor, crossed) =>
           && !crossed && cursor == Wrap32(|s.hist.out|)
           && |s.hist.out| <= Tracked(s.hist.gaps) < |s.hist.out| + RING_LEN && Tracked(s.hist.gaps) <= |s.hist.stream|
  }

  ghost predicate Inv(s: RingState) {
    HoldsNewest(s.slots, s.hist.stream) && CountOk(s) && CursorOk(s) && DiscardOk(s) && HistoryOk(s)
  }

  lemma FreshInv(s: RingState)
    requires Fresh(s)
    ensures Inv(s)
  {
  }

  lemma WriteKeepsInv(s: RingState, w: Word)
    requires Inv(s)
    ensures Inv(WriteStep(s, w))
  {
    WriteKeepsNewest(s.slots, s.hist.stream, w);
    var h, h' := s.hist, WriteStep(s, w).hist;
    if Consistent(h) {
      forall k | 0 <= k < |h.out|
        ensures h'.out[k] == h'.stream[Newest(k, h'.readAt[k])]
      {
        assert h.out[k] == h.stream[Newest(k, h.readAt[k])];
      }
    }
  }

  lemma SampleKeepsCount(s: RingState)
    requires CountOk(s)
    ensures CountOk(SampleStep(s)) && Left(SampleStep(s).total, s.total) < RING_LEN
  {
    SampleSlots(s.hist, s.total, s.prevOffset, |s.hist.stream| % RING_LEN, SampleStep(s).total);
  }

  lemma SampleKeepsHistory(s: RingState)
    requires Inv(s) && s.local.NoDrain?
    ensures HistoryOk(SampleStep(s))
  {
    SampleCounts(s.hist);
    FirstSample(s.hist);
  }

  lemma SampleKeepsInv(s: RingState)
    requires Inv(s) && s.local.NoDrain?
    ensures Inv(SampleStep(s))
  {
    SampleKeepsCount(s);
    SampleKeepsHistory(s);
    FirstSample(s.hist);
  }

  lemma FirstSample(h: History)
    ensures h.gaps == [] ==> Tracked(AddSample(h).gaps) < RING_LEN
    ensures Tracked(AddSample(h).gaps) < Tracked(h.gaps) + RING_LEN
  {
    assert AddSample(h).gaps[..|h.gaps|] == h.gaps;
  }

  lemma LoadKeepsInv(s: RingState)
    requires Inv(s) && s.local.Sampled?
    ensures Inv(LoadStep(s))
  {
    var t := s.local.t;
    if !s.dirty { NoOverrun(Tracked(s.hist.gaps), |s.hist.out|, s.discarded); }
    LoadedCursor(t, s.rd, s.discarded);
  }

  /** After the guard the cursor is at most a ring behind. */
  lemma LoadedCursor(t: Word, rd: Word, discarded: Word)
    ensures var (first, _) := OverrunGuard(t, rd, discarded);
            && Left(t, first) <= RING_LEN
            && (GuardFires(t, rd) ==> Left(t, first) == RING_LEN)
  {
  }

  lemma TakeKeepsHistory(s: RingState)
    requires Inv(s) && CanStep(s, Take)
    ensures HistoryOk(TakeStep(s))
  {
    if !s.dirty {
      var k := |s.hist.out|;
      WrapAdd(k, 1);
      WrapSlot(k);
      assert k < Tracked(s.hist.gaps);
      assert NextWord(s) == s.slots[Newest(k, |s.hist.stream|) % RING_LEN];
    }
  }

  lemma OneCloser(t: Word, cursor: Word)
    requires t != cursor
    ensures Left(t, Wrap32(cursor as int + 1)) == Left(t, cursor) - 1
  {
  }

  lemma TakeKeepsInv(s: RingState)
    requires Inv(s) && CanStep(s, Take)
    ensures Inv(TakeStep(s))
  {
    TakeKeepsHistory(s);
    OneCloser(s.local.t, s.local.cursor);
  }

  lemma WriteBackKeepsInv(s: RingState)
    requires Inv(s) && CanStep(s, WriteBack)
    ensures Inv(WriteBackStep(s))
  {
    if !s.dirty { WrapDistance(|s.hist.out|, Tracked(s.hist.gaps) - |s.hist.out|); }
  }

  lemma StepKeepsInv(s: RingState, step: Step)
    requires Inv(s) && CanStep(s, step)
    ensures Inv(Exec(s, step))
  {
    match step
    case Write(w) => WriteKeepsInv(s, w);
    case Sample => SampleKeepsInv(s);
    case Load => LoadKeepsInv(s);
    case Take => TakeKeepsInv(s);
    case WriteBack => WriteBackKeepsInv(s);
    case Reset =>
  }


  /** Core 1 is copying words up to count t, with its cursor there. */
  predicate InCopy(s: RingState, t: Word, cursor: Word) {
    |s.slots| == RING_LEN && s.local.Copying? && s.local.t == t && s.local.cursor == cursor
  }

  /** The same locals, whatever fell into the drain. */
  predicate SameDrain(a: Local, b: Local) {
    match a
    case NoDrain => b.NoDrain?
    case Sampled(t, _) => b.Sampled? && b.t == t
    case Copying(t, cursor, _) => b.Copying? && b.t == t && b.cursor == cursor
  }

  // ----- the statics that the firmware updates, and the memory that the DMA writes -----

  class Ring {
    const base: nat                // address of the 16 KB aligned block
    const slots: array<Word>
    var writeAddr: nat             // the DMA channel's write address
    var rd: Word
    var total: Word
    var prevOffset: nat
    var discarded: Word
    ghost var local: Local         // core 1's locals, while it drains
    ghost var stale: bool
    ghost var dirty: bool
    ghost var fired: nat
    ghost var hist: History

    ghost function Value(): RingState
      reads this, slots
    {
      RingState(slots[..], rd, total, prevOffset, discarded, local, stale, dirty, fired, hist)
    }

    ghost predicate Valid()
      reads this
    {
      && slots.Length == RING_LEN && base % RING_BYTES == 0 && base + RING_BYTES <= U32
      && writeAddr == base + 4 * (|hist.stream| % RING_LEN)
    }

    constructor (base: nat)
      requires base % RING_BYTES == 0 && base + RING_BYTES <= U32
      ensures Valid() && fresh(slots) && Fresh(Value())
    {
      this.base := base;
      slots := new Word[RING_LEN](_ => 0);
      writeAddr := base;
      rd, total, prevOffset, discarded := 0, 0, 0, 0;
      local, stale, dirty, fired, hist := NoDrain, false, false, 0, NOTHING;
    }

    /** `boot_capture_reset` / `txn_capture_reset`, at any moment of a drain on the other core:
      * re-arm at the base, forget everything. */
    method Reset()
      requires Valid()
      modifies this
      ensures Valid() && Value() == ResetStep(old(Value()))
    {
      writeAddr := base;
      rd, total, prevOffset, discarded := 0, 0, 0, 0;
      ghost var s := ResetStep(Value());
      local, stale, dirty, fired, hist := s.local, false, s.dirty, 0, NOTHING;
    }

    /** One DMA transfer; the write address wraps inside the aligned block. */
    method DmaWrite(w: Word)
      requires Valid()
      modifies this`writeAddr, this`hist, slots
      ensures Valid() && Value() == WriteStep(old(Value()), w)
    {
      OffsetOf(|hist.stream|);
      slots[(writeAddr - base) / 4] := w;
      writeAddr := base + (writeAddr - base + 4) % RING_BYTES;
      hist := hist.(stream := hist.stream + [w]);
      assert slots[..] == WriteStep(old(Value()), w).slots;
    }

    /** The write address, masked to the ring: the slot that the next word goes to. */
    method CurOffset() returns (slot: nat)
      requires Valid()
      ensures slot == |hist.stream| % RING_LEN
    {
      OffsetOf(|hist.stream|);
      slot := (writeAddr - base) % RING_BYTES / 4;
    }

    /** `bd_dma_total` / `tx_dma_total`: add the masked distance to the count. */
    method DmaTotal() returns (t: Word)
      requires Valid() && local.NoDrain?
      modifies this`total, this`prevOffset, this`hist, this`local
      ensures Valid() && Value() == SampleStep(old(Value())) && local == Sampled(t, false)
    {
      var curOffset := CurOffset();
      var delta := (curOffset - prevOffset) % RING_LEN;
      total := Wrap32(total + delta);
      prevOffset := curOffset;
      t := total;
      hist, local := AddSample(hist), Sampled(t, false);
    }

    /** `rd = *rd_cursor` and the overrun guard, which moves it up and counts what it skips. */
    method LoadCursor(t: Word) returns (cursor: Word)
      requires Valid() && local.Sampled? && t == local.t
      modifies this`discarded, this`local, this`fired
      ensures Valid() && Value() == LoadStep(old(Value()))
      ensures local == Copying(t, cursor, old(local).crossed)
    {
      cursor := rd;
      var lag := Left(t, cursor);
      if lag > RING_LEN {
        discarded := Wrap32(discarded + (lag - RING_LEN));
        cursor := Wrap32(t - RING_LEN);
        fired := fired + 1;
      }
      local := Copying(t, cursor, local.crossed);
    }

    /** One turn of the drain loop: the slot under the cursor, whatever it holds by now. */
    method TakeWord(t: Word, cursor: Word) returns (raw: Word, next: Word)
      requires Valid() && local.Copying? && t == local.t && cursor == local.cursor != t
      modifies this`hist, this`local
      ensures Valid() && Value() == TakeStep(old(Value())) && raw == NextWord(old(Value()))
      ensures local == Copying(t, next, old(local).crossed)
    {
      raw := slots[cursor % RING_LEN];
      next := Wrap32(cursor + 1);
      hist := hist.(out := hist.out + [raw], readAt := hist.readAt + [|hist.stream|]);
      local := Copying(t, next, local.crossed);
    }

    /** `*rd_cursor = rd`. */
    method StoreCursor(cursor: Word)
      requires Valid() && local.Copying? && cursor == local.cursor == local.t
      modifies this`rd, this`stale, this`local
      ensures Valid() && Value() == WriteBackStep(old(Value()))
    {
      rd := cursor;
      stale, local := local.crossed, NoDrain;
    }
  }
}
