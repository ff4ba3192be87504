/** The read-stream analyser, bus_integrity.c: running masks and counters whose verdicts
  * are proved to be facts about every read of the stream. */
module BusIntegrity {
  import opened Words

  const N_CHECKPOINTS := 6

  datatype Read = Read(addr: Half, data: Byte)

  datatype Checkpoint = Checkpoint(addr: Half, expected: Byte)

  const V20_CHECKPOINTS: seq<Checkpoint> := [
    Checkpoint(0x0000, 0xF3), Checkpoint(0x0001, 0xC3), Checkpoint(0x0002, 0xD7),
    Checkpoint(0x0003, 0x02), Checkpoint(0x02D7, 0x3E), Checkpoint(0x02D8, 0x82)]

  // ----- the tally as a value -----

  datatype Masks = Masks(dataHi: set<nat>, dataLo: set<nat>, addrHi: set<nat>, addrLo: set<nat>)

  datatype Counts = Counts(total: nat, allZero: nat, allOne: nat)

  datatype Checks = Checks(checked: set<nat>, failed: set<nat>)

  datatype Tally = Tally(masks: Masks, counts: Counts, checks: Checks)

  /** The checkpoints among the first n whose address is read, and those contradicted. */
  function Hits(r: Read, n: nat): set<nat>
    requires n <= N_CHECKPOINTS
  {
    set k: nat | k < n && V20_CHECKPOINTS[k].addr == r.addr
  }

  function Misses(r: Read, n: nat): set<nat>
    requires n <= N_CHECKPOINTS
  {
    set k: nat | k < n && V20_CHECKPOINTS[k].addr == r.addr && r.data != V20_CHECKPOINTS[k].expected
  }

  function FeedMasks(m: Masks, r: Read): Masks {
    Masks(m.dataHi + Bits(r.data, 8), m.dataLo + Unset(r.data, 8), m.addrHi + Bits(r.addr, 16), m.addrLo + Unset(r.addr, 16))
  }

  function FeedCounts(c: Counts, r: Read): Counts {
    Counts(Wrap32(c.total + 1),
           if r.data == 0x00 then Wrap32(c.allZero + 1) else c.allZero,
           if r.data == 0xFF then Wrap32(c.allOne + 1) else c.allOne)
  }

  function FeedChecks(c: Checks, r: Read): Checks {
    Checks(c.checked + Hits(r, N_CHECKPOINTS), c.failed + Misses(r, N_CHECKPOINTS))
  }

  function FeedOne(t: Tally, r: Read): Tally {
    Tally(FeedMasks(t.masks, r), FeedCounts(t.counts, r), FeedChecks(t.checks, r))
  }

  // The three parts never look at each other, so a whole stream folds part by part.

  function AllMasks(rs: seq<Read>): Masks {
    if rs == [] then Masks({}, {}, {}, {}) else FeedMasks(AllMasks(rs[..|rs| - 1]), rs[|rs| - 1])
  }

  function AllCounts(rs: seq<Read>): Counts {
    if rs == [] then Counts(0, 0, 0) else FeedCounts(AllCounts(rs[..|rs| - 1]), rs[|rs| - 1])
  }

  function AllChecks(rs: seq<Read>): Checks {
    if rs == [] then Checks({}, {}) else FeedChecks(AllChecks(rs[..|rs| - 1]), rs[|rs| - 1])
  }

  /** The tally of a whole read stream. */
  function FeedAll(rs: seq<Read>): Tally {
    Tally(AllMasks(rs), AllCounts(rs), AllChecks(rs))
  }

  lemma {:induction false} FeedAllStep(rs: seq<Read>, r: Read)
    ensures FeedAll(rs + [r]) == FeedOne(FeedAll(rs), r)
  {
    assert (rs + [r])[..|rs|] == rs;
  }

  // ----- the struct that the firmware updates -----

  class Analyser {
    var dataSeenHi: set<nat>
    var dataSeenLo: set<nat>
    var addrSeenHi: set<nat>
    var addrSeenLo: set<nat>
    var nReads: nat
    var nAllZero: nat
    var nAllOne: nat
    var cpChecked: set<nat>
    var cpFailed: set<nat>

    function Value(): Tally
      reads this
    {
      Tally(Masks(dataSeenHi, dataSeenLo, addrSeenHi, addrSeenLo), Counts(nReads, nAllZero, nAllOne),
            Checks(cpChecked, cpFailed))
    }

    constructor ()
      ensures Value() == FeedAll([])
    {
      dataSeenHi, dataSeenLo, addrSeenHi, addrSeenLo := {}, {}, {}, {};
      nReads, nAllZero, nAllOne, cpChecked, cpFailed := 0, 0, 0, {}, {};
    }

    method Reset()
      modifies this
      ensures Value() == FeedAll([])
    {
      dataSeenHi, dataSeenLo, addrSeenHi, addrSeenLo := {}, {}, {}, {};
      nReads, nAllZero, nAllOne, cpChecked, cpFailed := 0, 0, 0, {}, {};
    }

    method Feed(addr: Half, data: Byte)
      modifies this
      ensures Value() == FeedOne(old(Value()), Read(addr, data))
    {
      nReads := Wrap32(nReads + 1);
      dataSeenHi := dataSeenHi + Bits(data, 8);
      dataSeenLo := dataSeenLo + Unset(data, 8);
      addrSeenHi := addrSeenHi + Bits(addr, 16);
      addrSeenLo := addrSeenLo + Unset(addr, 16);
      if data == 0x00 { nAllZero := Wrap32(nAllZero + 1); }
      if data == 0xFF { nAllOne := Wrap32(nAllOne + 1); }
      MarkCheckpoints(Read(addr, data));
    }

    method MarkCheckpoints(r: Read)
      modifies this`cpChecked, this`cpFailed
      ensures cpChecked == old(cpChecked) + Hits(r, N_CHECKPOINTS)
      ensures cpFailed == old(cpFailed) + Misses(r, N_CHECKPOINTS)
    {
      for k := 0 to N_CHECKPOINTS
        invariant cpChecked == old(cpChecked) + Hits(r, k)
        invariant cpFailed == old(cpFailed) + Misses(r, k)
      {
        OneMoreCheckpoint(r, k);
        if V20_CHECKPOINTS[k].addr == r.addr {
          cpChecked := cpChecked + {k};
          if r.data != V20_CHECKPOINTS[k].expected {
            cpFailed := cpFailed + {k};
          }
        }
      }
    }
  }

  lemma {:induction false} OneMoreCheckpoint(r: Read, k: nat)
    requires k < N_CHECKPOINTS
    ensures var hit := V20_CHECKPOINTS[k].addr == r.addr;
            && Hits(r, k + 1) == Hits(r, k) + (if hit then {k} else {})
            && Misses(r, k + 1) == Misses(r, k) + (if hit && r.data != V20_CHECKPOINTS[k].expected then {k} else {})
  {
  }

  // ----- verdicts, as the firmware computes them -----

  function StuckDataHi(t: Tally, minReads: nat): set<nat> {
    if t.counts.total < minReads then {} else t.masks.dataHi - t.masks.dataLo
  }

  function StuckDataLo(t: Tally, minReads: nat): set<nat> {
    if t.counts.total < minReads then {} else t.masks.dataLo - t.masks.dataHi
  }

  function Toggled(t: Tally): set<nat> { t.masks.addrHi * t.masks.addrLo }

  function StuckAddr(t: Tally, minReads: nat, minBits: nat): set<nat> {
    if t.counts.total < minReads || |Toggled(t)| < minBits then {}
    else (t.masks.addrHi + t.masks.addrLo) - Toggled(t)
  }

  predicate BusUndriven(t: Tally, minReads: nat) {
    t.counts.total >= minReads && Wrap32(Wrap32(t.counts.allZero + t.counts.allOne) * 2) > t.counts.total
  }

  // ----- what the running masks say about the stream -----

  ghost predicate SomeData(rs: seq<Read>, k: nat, level: bool) {
    exists i :: 0 <= i < |rs| && Bit(rs[i].data, k) == level
  }

  ghost predicate SomeAddr(rs: seq<Read>, k: nat, level: bool) {
    exists i :: 0 <= i < |rs| && Bit(rs[i].addr, k) == level
  }

  function CountData(rs: seq<Read>, v: Byte): nat {
    if rs == [] then 0 else CountData(rs[..|rs| - 1], v) + if rs[|rs| - 1].data == v then 1 else 0
  }

  lemma {:induction false} SeenExactly(rs: seq<Read>, k: nat)
    ensures k in AllMasks(rs).dataHi <==> k < 8 && SomeData(rs, k, true)
    ensures k in AllMasks(rs).dataLo <==> k < 8 && SomeData(rs, k, false)
    ensures k in AllMasks(rs).addrHi <==> k < 16 && SomeAddr(rs, k, true)
    ensures k in AllMasks(rs).addrLo <==> k < 16 && SomeAddr(rs, k, false)
  {
    if rs != [] {
      var init, last := rs[..|rs| - 1], rs[|rs| - 1];
      SeenExactly(init, k);
      assert forall i :: 0 <= i < |init| ==> init[i] == rs[i];
      assert last == rs[|init|];
    }
  }

  lemma {:induction false} CountsExactly(rs: seq<Read>)
    requires |rs| < U32
    ensures AllCounts(rs).total == |rs|
    ensures AllCounts(rs).allZero == CountData(rs, 0x00)
    ensures AllCounts(rs).allOne == CountData(rs, 0xFF)
    ensures CountData(rs, 0x00) + CountData(rs, 0xFF) <= |rs|
  {
    if rs != [] {
      CountsExactly(rs[..|rs| - 1]);
    }
  }

  ghost predicate SomeReadAt(rs: seq<Read>, k: nat)
    requires k < N_CHECKPOINTS
  {
    exists i :: 0 <= i < |rs| && rs[i].addr == V20_CHECKPOINTS[k].addr
  }

  ghost predicate SomeMismatch(rs: seq<Read>, k: nat)
    requires k < N_CHECKPOINTS
  {
    exists i :: 0 <= i < |rs| && rs[i].addr == V20_CHECKPOINTS[k].addr && rs[i].data != V20_CHECKPOINTS[k].expected
  }

  /** A checkpoint bit is set iff its address was read, and failed iff some read of it differed. */
  lemma {:induction false} CheckpointsExactly(rs: seq<Read>, k: nat)
    ensures k in AllChecks(rs).checked <==> k < N_CHECKPOINTS && SomeReadAt(rs, k)
    ensures k in AllChecks(rs).failed <==> k < N_CHECKPOINTS && SomeMismatch(rs, k)
  {
    if rs != [] {
      var init, last := rs[..|rs| - 1], rs[|rs| - 1];
      CheckpointsExactly(init, k);
      assert forall i :: 0 <= i < |init| ==> init[i] == rs[i];
      assert last == rs[|init|];
    }
  }

  // ----- verdicts are exact -----

  /** A data bit is reported stuck iff the gate is met and every single read had it at that level. */
  lemma {:induction false} StuckDataExact(rs: seq<Read>, minReads: nat, k: nat)
    requires 0 < |rs| < U32 && k < 8
    ensures k in StuckDataHi(FeedAll(rs), minReads) <==>
            |rs| >= minReads && forall i :: 0 <= i < |rs| ==> Bit(rs[i].data, k)
    ensures k in StuckDataLo(FeedAll(rs), minReads) <==>
            |rs| >= minReads && forall i :: 0 <= i < |rs| ==> !Bit(rs[i].data, k)
  {
    SeenExactly(rs, k);
    CountsExactly(rs);
    assert Bit(rs[0].data, k) || !Bit(rs[0].data, k);
  }

  ghost predicate Constant(rs: seq<Read>, k: nat) {
    forall i, j :: 0 <= i < j < |rs| ==> Bit(rs[i].addr, k) == Bit(rs[j].addr, k)
  }

  ghost function ConstantBits(rs: seq<Read>): set<nat> { set k: nat | k < 16 && Constant(rs, k) }

  lemma {:induction false} ToggledBits(rs: seq<Read>)
    requires 0 < |rs|
    ensures Toggled(FeedAll(rs)) == All(16) - ConstantBits(rs)
    ensures AllMasks(rs).addrHi + AllMasks(rs).addrLo == All(16)
  {
    forall k: nat | k < 16
      ensures k in Toggled(FeedAll(rs)) <==> !Constant(rs, k)
      ensures k in AllMasks(rs).addrHi + AllMasks(rs).addrLo
    {
      SeenExactly(rs, k);
      assert Bit(rs[0].addr, k) || !Bit(rs[0].addr, k);
    }
    forall k: nat | k >= 16
      ensures k !in Toggled(FeedAll(rs)) && k !in AllMasks(rs).addrHi + AllMasks(rs).addrLo
    {
      SeenExactly(rs, k);
    }
  }

  /** The address verdict names exactly the bits that never changed, provided enough of the others
    * did; it never names more than 16 - minBits. */
  lemma {:induction false} StuckAddrExact(rs: seq<Read>, minReads: nat, minBits: nat)
    requires 0 < |rs| < U32 && minBits <= 16
    ensures var constant := ConstantBits(rs); var verdict := StuckAddr(FeedAll(rs), minReads, minBits);
            && verdict == (if |rs| >= minReads && 16 - |constant| >= minBits then constant else {})
            && |verdict| <= 16 - minBits
  {
    CountsExactly(rs);
    ToggledBits(rs);
    AllSize(16);
    var constant := ConstantBits(rs);
    assert constant <= All(16);
    assert |All(16) - constant| == 16 - |constant|;
    assert All(16) - (All(16) - constant) == constant;
  }

  lemma DoublingIsRightIff(bad: nat, total: nat)
    requires bad <= total < U32
    ensures (Wrap32(Wrap32(bad) * 2) > total <==> 2 * bad > total) <==> bad < 0x8000_0000
  {
    assert Wrap32(bad) == bad;
    if bad < 0x8000_0000 {
      assert Wrap32(bad * 2) == bad * 2;
    } else {
      assert Wrap32(bad * 2) == bad * 2 - U32;
    }
  }

  /** The undriven verdict is a strict majority of 00 and FF reads, if and only if fewer than 2^31
    * of them were counted: from there on the doubling wraps and the verdict is lost. */
  lemma {:induction false} UndrivenExactIff(rs: seq<Read>, minReads: nat)
    requires minReads <= |rs| < U32
    ensures var bad := CountData(rs, 0x00) + CountData(rs, 0xFF);
            (BusUndriven(FeedAll(rs), minReads) <==> 2 * bad > |rs|) <==> bad < 0x8000_0000
  {
    CountsExactly(rs);
    DoublingIsRightIff(CountData(rs, 0x00) + CountData(rs, 0xFF), |rs|);
  }

  lemma {:induction false} BitsOfZeroAndFF(k: nat)
    requires k < 8
    ensures !Bit(0x00, k) && Bit(0xFF, k)
  {
    ZeroHasNoBit(k);
    MaxHasEveryBit(8, k);
    assert Pow2(4) == 16 && Pow2(8) == 256;
  }

  lemma {:induction false} NoSuchData(rs: seq<Read>, v: Byte)
    requires forall i :: 0 <= i < |rs| ==> rs[i].data != v
    ensures CountData(rs, v) == 0
  {
    if rs != [] {
      NoSuchData(rs[..|rs| - 1], v);
    }
  }

  lemma {:induction false} StuckRulesOutExtremes(rs: seq<Read>, minReads: nat, k: nat)
    requires 0 < |rs| < U32
    ensures k in StuckDataHi(FeedAll(rs), minReads) ==> CountData(rs, 0x00) == 0
    ensures k in StuckDataLo(FeedAll(rs), minReads) ==> CountData(rs, 0xFF) == 0
  {
    SeenExactly(rs, k);
    if k < 8 {
      StuckDataExact(rs, minReads, k);
      BitsOfZeroAndFF(k);
      if k in StuckDataHi(FeedAll(rs), minReads) { NoSuchData(rs, 0x00); }
      if k in StuckDataLo(FeedAll(rs), minReads) { NoSuchData(rs, 0xFF); }
    }
  }

  /** A bus that is reported undriven is never also reported with one data bit stuck high and
    * another stuck low. */
  lemma {:induction false} UndrivenExcludesBothStuck(rs: seq<Read>, minReads: nat, minReads': nat)
    requires 0 < |rs| < U32
    requires StuckDataHi(FeedAll(rs), minReads) != {} && StuckDataLo(FeedAll(rs), minReads) != {}
    ensures !BusUndriven(FeedAll(rs), minReads')
  {
    var hi :| hi in StuckDataHi(FeedAll(rs), minReads);
    var lo :| lo in StuckDataLo(FeedAll(rs), minReads);
    StuckRulesOutExtremes(rs, minReads, hi);
    StuckRulesOutExtremes(rs, minReads, lo);
    CountsExactly(rs);
  }

  // ----- what passing all six checkpoints proves -----

  ghost predicate AllCheckpointsPassed(rs: seq<Read>) {
    AllChecks(rs).checked == {0, 1, 2, 3, 4, 5} && AllChecks(rs).failed == {}
  }

  lemma {:induction false} PassedRead(rs: seq<Read>, k: nat) returns (i: nat)
    requires AllCheckpointsPassed(rs) && k < N_CHECKPOINTS
    ensures i < |rs| && rs[i].data == V20_CHECKPOINTS[k].expected
  {
    CheckpointsExactly(rs, k);
    assert k in AllChecks(rs).checked;
    i :| 0 <= i < |rs| && rs[i].addr == V20_CHECKPOINTS[k].addr;
    assert !SomeMismatch(rs, k);
  }

  lemma ExpectedBits(k: nat)
    requires k < 8
    ensures Bit(0xF3, k) || Bit(0x3E, k)
    ensures Bit(0x02, k) <==> k == 1
  {
    assert 0xF3 / 2 == 0x79 && 0x79 / 2 == 0x3C && 0x3C / 2 == 0x1E && 0x1E / 2 == 0x0F;
    assert 0x3E / 2 == 0x1F && 0x1F / 2 == 0x0F;
    if k >= 4 {
      MaxHasEveryBit(4, k - 4);
      assert Pow2(4) == 16;
      assert Bit(0xF3, k) == Bit(0x79, k - 1) == Bit(0x3C, k - 2) == Bit(0x1E, k - 3) == Bit(0x0F, k - 4);
    } else if k >= 2 {
      MaxHasEveryBit(4, k - 2);
      assert Pow2(4) == 16;
      assert Bit(0x3E, k) == Bit(0x1F, k - 1) == Bit(0x0F, k - 2);
    }
    if k >= 2 {
      ZeroHasNoBit(k - 2);
      assert Bit(0x02, k) == Bit(1, k - 1) == Bit(0, k - 2);
    }
  }

  /** The checkpoints are DI at the reset vector, JP behind it, and LD A,$82 where that jump goes. */
  lemma CheckpointsAreTheFirstInstructions()
    ensures var cp := V20_CHECKPOINTS;
            && cp[0] == Checkpoint(0x0000, 0xF3) && cp[1] == Checkpoint(0x0001, 0xC3)
            && cp[2].addr == 0x0002 && cp[3].addr == 0x0003
            && cp[2].expected + 0x100 * cp[3].expected == cp[4].addr == 0x02D7
            && cp[4].expected == 0x3E && cp[5] == Checkpoint(cp[4].addr + 1, 0x82)
  {
  }

  /** If all six checkpoints were read and none failed, no data bit is reported stuck low and
    * none but D1 stuck high. */
  lemma {:induction false} CheckpointCoverage(rs: seq<Read>, minReads: nat)
    requires 0 < |rs| < U32 && AllCheckpointsPassed(rs)
    ensures StuckDataLo(FeedAll(rs), minReads) == {}
    ensures StuckDataHi(FeedAll(rs), minReads) <= {1}
  {
    var i0 := PassedRead(rs, 0);
    var i3 := PassedRead(rs, 3);
    var i4 := PassedRead(rs, 4);
    forall k: nat
      ensures k !in StuckDataLo(FeedAll(rs), minReads)
      ensures k in StuckDataHi(FeedAll(rs), minReads) ==> k == 1
    {
      SeenExactly(rs, k);
      if k < 8 {
        ExpectedBits(k);
        StuckDataExact(rs, minReads, k);
      }
    }
  }

  ghost predicate OnlyCheckpointReads(rs: seq<Read>) {
    forall i :: 0 <= i < |rs| ==>
      exists k :: 0 <= k < N_CHECKPOINTS && rs[i] == Read(V20_CHECKPOINTS[k].addr, V20_CHECKPOINTS[k].expected)
  }

  /** The exception is real: D1 is 1 in every expected byte, so a healthy machine that only ever
    * reads the checkpoints is reported with D1 stuck high. */
  lemma {:induction false} CheckpointsCannotClearD1(rs: seq<Read>, minReads: nat)
    requires 0 < |rs| < U32 && minReads <= |rs| && OnlyCheckpointReads(rs)
    ensures 1 in StuckDataHi(FeedAll(rs), minReads)
  {
    forall i | 0 <= i < |rs|
      ensures Bit(rs[i].data, 1)
    {
      var k :| 0 <= k < N_CHECKPOINTS && rs[i] == Read(V20_CHECKPOINTS[k].addr, V20_CHECKPOINTS[k].expected);
      assert V20_CHECKPOINTS[k].expected / 2 % 2 == 1;
    }
    StuckDataExact(rs, minReads, 1);
  }
}
