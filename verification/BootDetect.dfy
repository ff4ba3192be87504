/** The boot-phase detector, boot_detect.c: nine milestones recognised in the stream of
  * decoded bus cycles. */
module BootDetect {
  import opened Words

  const PHASE_COUNT := 9

  const RESET_VECTOR := 0
  const BIOS_ENTRY := 1
  const SLOT_RAM_PROBE := 2
  const BIOS_INIT_DONE := 3
  const BASIC_HANDOFF := 4
  const BASIC_COLDSTART := 5
  const BASIC_BIOS_VECS := 6
  const VDP_INIT := 7
  const CART_SCAN := 8

  datatype Kind = Fetch | MemRead | MemWrite | IoRead | IoWrite

  datatype Event = Event(kind: Kind, addr: Half, data: Byte, dataValid: bool)

  datatype DetectState = DetectState(
    phaseFlags: set<nat>, earlyPpiWrites: bool, workAreaInit: bool, headerRead: bool,
    header4000: Byte, header4001: Byte, lastConfirmed: int, firstMissing: int)

  // ----- derived fields -----

  /** Highest phase below n that was observed, -1 if none. */
  function LastConfirmed(flags: set<nat>, n: nat): (l: int)
    ensures -1 <= l < n
    ensures l >= 0 ==> l in flags
    ensures forall p: nat :: l < p < n ==> p !in flags
  {
    if n == 0 then -1 else if n - 1 in flags then n - 1 else LastConfirmed(flags, n - 1)
  }

  /** Lowest phase from n on that was not observed, PHASE_COUNT if none. */
  function FirstMissing(flags: set<nat>, n: nat): (f: int)
    requires n <= PHASE_COUNT
    ensures n <= f <= PHASE_COUNT
    ensures f < PHASE_COUNT ==> f !in flags
    ensures forall p: nat :: n <= p < f ==> p in flags
    decreases PHASE_COUNT - n
  {
    if n == PHASE_COUNT || n !in flags then n else FirstMissing(flags, n + 1)
  }

  // ----- one event, as a function of the old state -----

  function PhasesOf(ev: Event): set<nat> {
    match ev.kind
    case Fetch =>
      (match ev.addr
       case 0x0000 => {RESET_VECTOR}
       case 0x02D7 => {BIOS_ENTRY}
       case 0x03F8 => {BIOS_INIT_DONE}
       case 0x2680 => {BASIC_HANDOFF}
       case 0x7C76 => {BASIC_COLDSTART}
       case 0x003E => {BASIC_BIOS_VECS}
       case 0x003B => {BASIC_BIOS_VECS}
       case 0x006F => {BASIC_BIOS_VECS}
       case 0x0069 => {BASIC_BIOS_VECS}
       case 0x7D75 => {CART_SCAN}
       case _ => {})
    case MemRead => if ev.addr == 0x4000 || ev.addr == 0x4001 then {CART_SCAN} else {}
    case MemWrite =>
      (if ev.addr == 0xFD9A then {BASIC_COLDSTART} else {}) +
      (if ev.addr == 0xBF00 || ev.addr >= 0xC000 then {SLOT_RAM_PROBE} else {})
    case IoRead => {}
    case IoWrite =>
      var port := ev.addr % 0x100;
      if port == 0xA8 then {BIOS_ENTRY, SLOT_RAM_PROBE}
      else if port == 0xAB || port == 0xAA then {BIOS_ENTRY}
      else if port == 0x99 || port == 0x98 then {VDP_INIT}
      else {}
  }

  predicate TouchesPpi(ev: Event) { ev.kind.IoWrite? && ev.addr % 0x100 in {0xA8, 0xAA, 0xAB} }

  predicate TouchesWorkArea(ev: Event) { ev.kind.MemWrite? && ev.addr == 0xFD9A }

  predicate HeaderByte(ev: Event, addr: Half) { ev.kind.MemRead? && ev.addr == addr && ev.dataValid }

  function WithPhases(s: DetectState, phases: set<nat>): DetectState {
    if phases == {} then s
    else s.(phaseFlags := s.phaseFlags + phases,
            lastConfirmed := LastConfirmed(s.phaseFlags + phases, PHASE_COUNT),
            firstMissing := FirstMissing(s.phaseFlags + phases, 0))
  }

  function FeedOne(s: DetectState, ev: Event): DetectState {
    var h0 := if HeaderByte(ev, 0x4000) then ev.data else s.header4000;
    var h1 := if HeaderByte(ev, 0x4001) then ev.data else s.header4001;
    WithPhases(s, PhasesOf(ev)).(
      earlyPpiWrites := s.earlyPpiWrites || TouchesPpi(ev),
      workAreaInit := s.workAreaInit || TouchesWorkArea(ev),
      header4000 := h0,
      header4001 := h1,
      headerRead := s.headerRead || ((HeaderByte(ev, 0x4000) || HeaderByte(ev, 0x4001)) && h0 == 0x41 && h1 == 0x42))
  }

  const START := DetectState({}, false, false, false, 0xFF, 0xFF, -1, 0)

  function FeedAll(evs: seq<Event>): DetectState {
    if evs == [] then START else FeedOne(FeedAll(evs[..|evs| - 1]), evs[|evs| - 1])
  }

  lemma {:induction false} FeedAllStep(evs: seq<Event>, ev: Event)
    ensures FeedAll(evs + [ev]) == FeedOne(FeedAll(evs), ev)
  {
    assert (evs + [ev])[..|evs|] == evs;
  }

  // ----- the statics that the firmware updates -----

  class Detector {
    var phaseFlags: set<nat>
    var earlyPpiWrites: bool
    var workAreaInit: bool
    var headerRead: bool
    var header4000: Byte
    var header4001: Byte
    var lastConfirmed: int
    var firstMissing: int

    function Value(): DetectState
      reads this
    {
      DetectState(phaseFlags, earlyPpiWrites, workAreaInit, headerRead, header4000, header4001, lastConfirmed, firstMissing)
    }

    // Static storage: all zero until the first reset.
    constructor ()
      ensures Value() == DetectState({}, false, false, false, 0, 0, 0, 0)
    {
      phaseFlags, earlyPpiWrites, workAreaInit, headerRead := {}, false, false, false;
      header4000, header4001, lastConfirmed, firstMissing := 0, 0, 0, 0;
    }

    method RecomputeDerived()
      modifies this`lastConfirmed, this`firstMissing
      ensures lastConfirmed == LastConfirmed(phaseFlags, PHASE_COUNT)
      ensures firstMissing == FirstMissing(phaseFlags, 0)
    {
      lastConfirmed := -1;
      for i := 0 to PHASE_COUNT
        invariant lastConfirmed == LastConfirmed(phaseFlags, i)
      {
        if i in phaseFlags { lastConfirmed := i; }
      }
      firstMissing := PHASE_COUNT;
      for i := 0 to PHASE_COUNT
        invariant firstMissing == PHASE_COUNT
        invariant FirstMissing(phaseFlags, 0) == FirstMissing(phaseFlags, i)
      {
        if i !in phaseFlags {
          firstMissing := i;
          break;
        }
      }
    }

    method Reset()
      modifies this
      ensures Value() == START
    {
      phaseFlags, earlyPpiWrites, workAreaInit, headerRead := {}, false, false, false;
      header4000, header4001 := 0xFF, 0xFF;
      RecomputeDerived();
      assert LastConfirmed({}, PHASE_COUNT) == -1;
    }

    method SetPhase(p: nat)
      modifies this`phaseFlags, this`lastConfirmed, this`firstMissing
      ensures Value() == WithPhases(old(Value()), {p})
    {
      phaseFlags := phaseFlags + {p};
      RecomputeDerived();
    }

    method Feed(ev: Event)
      modifies this
      ensures Value() == FeedOne(old(Value()), ev)
    {
      match ev.kind
      case Fetch => FeedFetch(ev);
      case MemRead => FeedMemRead(ev);
      case MemWrite => FeedMemWrite(ev);
      case IoWrite => FeedIoWrite(ev);
      case IoRead =>
    }

    method FeedFetch(ev: Event)
      requires ev.kind.Fetch?
      modifies this
      ensures Value() == FeedOne(old(Value()), ev)
    {
      match ev.addr
      case 0x0000 => SetPhase(RESET_VECTOR);
      case 0x02D7 => SetPhase(BIOS_ENTRY);
      case 0x03F8 => SetPhase(BIOS_INIT_DONE);
      case 0x2680 => SetPhase(BASIC_HANDOFF);
      case 0x7C76 => SetPhase(BASIC_COLDSTART);
      case 0x003E => SetPhase(BASIC_BIOS_VECS);
      case 0x003B => SetPhase(BASIC_BIOS_VECS);
      case 0x006F => SetPhase(BASIC_BIOS_VECS);
      case 0x0069 => SetPhase(BASIC_BIOS_VECS);
      case 0x7D75 => SetPhase(CART_SCAN);
      case _ =>
    }

    method FeedMemRead(ev: Event)
      requires ev.kind.MemRead?
      modifies this
      ensures Value() == FeedOne(old(Value()), ev)
    {
      if ev.addr == 0x4000 || ev.addr == 0x4001 {
        SetPhase(CART_SCAN);
        if ev.dataValid {
          if ev.addr == 0x4000 { header4000 := ev.data; } else { header4001 := ev.data; }
          if header4000 == 0x41 && header4001 == 0x42 { headerRead := true; }
        }
      }
    }

    method FeedMemWrite(ev: Event)
      requires ev.kind.MemWrite?
      modifies this
      ensures Value() == FeedOne(old(Value()), ev)
    {
      ghost var s := Value();
      if ev.addr == 0xFD9A {
        workAreaInit := true;
        SetPhase(BASIC_COLDSTART);
        TwoPhases(s.(workAreaInit := true), BASIC_COLDSTART, SLOT_RAM_PROBE);
        assert PhasesOf(ev) == {BASIC_COLDSTART, SLOT_RAM_PROBE};
      } else {
        assert PhasesOf(ev) == if ev.addr == 0xBF00 || ev.addr >= 0xC000 then {SLOT_RAM_PROBE} else {};
      }
      if ev.addr == 0xFFFF || ev.addr == 0xBF00 || ev.addr == 0xFE00 || ev.addr >= 0xC000 {
        SetPhase(SLOT_RAM_PROBE);
      }
    }

    method FeedIoWrite(ev: Event)
      requires ev.kind.IoWrite?
      modifies this
      ensures Value() == FeedOne(old(Value()), ev)
    {
      ghost var s := Value();
      var port := ev.addr % 0x100;
      if port == 0xAB || port == 0xA8 || port == 0xAA {
        earlyPpiWrites := true;
        SetPhase(BIOS_ENTRY);
        if port == 0xA8 {
          SetPhase(SLOT_RAM_PROBE);
          TwoPhases(s.(earlyPpiWrites := true), BIOS_ENTRY, SLOT_RAM_PROBE);
        }
      } else if port == 0x99 || port == 0x98 {
        SetPhase(VDP_INIT);
      }
    }
  }

  lemma TwoPhases(s: DetectState, p: nat, q: nat)
    ensures WithPhases(WithPhases(s, {p}), {q}) == WithPhases(s, {p, q})
  {
    assert s.phaseFlags + {p} + {q} == s.phaseFlags + {p, q};
  }

  // ----- which events mean which phase, phase by phase -----

  predicate Implies(ev: Event, p: nat) {
    if p == RESET_VECTOR then ev.kind.Fetch? && ev.addr == 0x0000
    else if p == BIOS_ENTRY then (ev.kind.Fetch? && ev.addr == 0x02D7) || TouchesPpi(ev)
    else if p == SLOT_RAM_PROBE then
      || (ev.kind.IoWrite? && ev.addr % 0x100 == 0xA8)
      || (ev.kind.MemWrite? && (ev.addr >= 0xC000 || ev.addr == 0xBF00))
    else if p == BIOS_INIT_DONE then ev.kind.Fetch? && ev.addr == 0x03F8
    else if p == BASIC_HANDOFF then ev.kind.Fetch? && ev.addr == 0x2680
    else if p == BASIC_COLDSTART then (ev.kind.Fetch? && ev.addr == 0x7C76) || TouchesWorkArea(ev)
    else if p == BASIC_BIOS_VECS then ev.kind.Fetch? && ev.addr in {0x003E, 0x003B, 0x006F, 0x0069}
    else if p == VDP_INIT then ev.kind.IoWrite? && ev.addr % 0x100 in {0x98, 0x99}
    else if p == CART_SCAN then
      || (ev.kind.Fetch? && ev.addr == 0x7D75)
      || (ev.kind.MemRead? && ev.addr in {0x4000, 0x4001})
    else false
  }

  lemma PhasesOfExactly(ev: Event, p: nat)
    ensures p in PhasesOf(ev) <==> Implies(ev, p)
  {
  }

  ghost predicate Seen(evs: seq<Event>, p: nat) {
    exists i :: 0 <= i < |evs| && Implies(evs[i], p)
  }

  /** The newest authoritative byte at a header address, 0xFF before any. */
  function Newest(evs: seq<Event>, addr: Half): Byte {
    if evs == [] then 0xFF
    else if HeaderByte(evs[|evs| - 1], addr) then evs[|evs| - 1].data
    else Newest(evs[..|evs| - 1], addr)
  }

  /** After any trace: a phase is set iff some event of the trace means it, and the derived fields
    * are the highest observed and the lowest missing phase. */
  lemma {:induction false} DetectorExact(evs: seq<Event>, p: nat)
    ensures p in FeedAll(evs).phaseFlags <==> Seen(evs, p)
    ensures var s := FeedAll(evs);
            && s.lastConfirmed == LastConfirmed(s.phaseFlags, PHASE_COUNT)
            && s.firstMissing == FirstMissing(s.phaseFlags, 0)
  {
    if evs == [] {
      assert LastConfirmed({}, PHASE_COUNT) == -1;
    } else {
      var init, last := evs[..|evs| - 1], evs[|evs| - 1];
      DetectorExact(init, p);
      PhasesOfExactly(last, p);
      assert forall i :: 0 <= i < |init| ==> init[i] == evs[i];
      assert last == evs[|init|];
    }
  }

  /** The side flags are facts about the trace too; the header counts as read iff, at some point
    * of the trace, the newest authoritative bytes were 41 42. */
  lemma {:induction false} SideFlagsExact(evs: seq<Event>)
    ensures FeedAll(evs).earlyPpiWrites <==> exists i :: 0 <= i < |evs| && TouchesPpi(evs[i])
    ensures FeedAll(evs).workAreaInit <==> exists i :: 0 <= i < |evs| && TouchesWorkArea(evs[i])
    ensures FeedAll(evs).header4000 == Newest(evs, 0x4000)
    ensures FeedAll(evs).header4001 == Newest(evs, 0x4001)
    ensures FeedAll(evs).headerRead <==>
            exists n :: 0 <= n <= |evs| && Newest(evs[..n], 0x4000) == 0x41 && Newest(evs[..n], 0x4001) == 0x42
  {
    if evs != [] {
      var init, last := evs[..|evs| - 1], evs[|evs| - 1];
      SideFlagsExact(init);
      assert forall i :: 0 <= i < |init| ==> init[i] == evs[i];
      assert last == evs[|init|];
      assert forall n :: 0 <= n <= |init| ==> init[..n] == evs[..n];
      assert evs[..|evs|] == evs && init[..|init|] == init;
    }
  }

  // ----- display status -----

  datatype Status = Ok | Stalled | NotReached

  function StatusOf(flags: set<nat>, firstMissing: int, p: nat): Status {
    if p in flags then Ok else if p == firstMissing then Stalled else NotReached
  }

  /** What is shown of a phase: OK iff it was observed; stalled iff it is the lowest that was not; not reached
    * iff it was not observed and one below it was not either. */
  lemma StatusExact(flags: set<nat>, p: nat)
    requires p < PHASE_COUNT
    ensures var st := StatusOf(flags, FirstMissing(flags, 0), p);
            && (st == Ok <==> p in flags)
            && (st == Stalled <==> p !in flags && forall q: nat :: q < p ==> q in flags)
            && (st == NotReached <==> p !in flags && exists q: nat :: q < p && q !in flags)
  {
    var f := FirstMissing(flags, 0);
    if f < p { assert f !in flags; }
  }

  /** After any trace exactly one phase is shown as stalled, unless all nine were observed; all
    * phases before it are shown as observed. */
  lemma {:induction false} ExactlyOneStall(evs: seq<Event>)
    ensures var s := FeedAll(evs);
            && ((forall p: nat :: p < PHASE_COUNT ==> p in s.phaseFlags) <==> s.firstMissing == PHASE_COUNT)
            && (forall p: nat :: p < PHASE_COUNT ==>
                  (StatusOf(s.phaseFlags, s.firstMissing, p) == Stalled <==> p == s.firstMissing))
            && (forall p: nat :: p < s.firstMissing ==> StatusOf(s.phaseFlags, s.firstMissing, p) == Ok)
  {
    DetectorExact(evs, 0);
  }
}
