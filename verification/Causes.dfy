/** The list of possible causes that boot_diag.c writes for a frozen result. */
module Causes {
  import opened Words
  import opened TextBuffer
  import BD = BootDetect
  import opened BootDiag

  // ----- what an unbounded buffer would get -----

  function AnomalyLine(a: nat): string {
    if a == CLK_ABSENT then "no clock - xtal / " + "clock gen / CPU clk pin\n"
    else if a == CLK_OUT_OF_RANGE then "clock off-freq - " + "xtal / clock gen\n"
    else if a == RESET_STUCK then "reset held - RC / " + "Schmitt / short to GND\n"
    else if a == NO_BUS_CYCLES then "no bus cycles - Z80 or " + "addr-decode / ROM /CS\n"
    else "/WAIT low - " + "wait-state source\n"
  }

  function AnomalyCause(flags: set<nat>, a: nat): seq<string> { if a in flags then [AnomalyLine(a)] else [] }

  function AnomalyCauses(flags: set<nat>): seq<string> {
    AnomalyCause(flags, CLK_ABSENT) + AnomalyCause(flags, CLK_OUT_OF_RANGE) + AnomalyCause(flags, RESET_STUCK)
    + AnomalyCause(flags, NO_BUS_CYCLES) + AnomalyCause(flags, WAIT_STUCK_LOW)
  }

  function BitName(letter: string, k: nat): string { letter + Dec(k) + " " }

  function BitNames(letter: string, mask: set<nat>, n: nat): string {
    if n == 0 then "" else BitNames(letter, mask, n - 1) + if n - 1 in mask then BitName(letter, n - 1) else ""
  }

  function BitCause(letter: string, mask: set<nat>, width: nat, hint: string): seq<string> {
    if Zero(mask, width) then [] else [BitNames(letter, mask, width) + (hint + "\n")]
  }

  function HiHint(): string { "stuck hi - buffer " + "(LVC245) or driver" }

  function LoHint(): string { "stuck lo - buffer " + "(LVC245) or driver" }

  function AddrHint(): string { "stuck - line or " + "address decode" }

  function StuckCauses(r: Result): seq<string> {
    BitCause("D", r.stuckDataHi, 8, HiHint()) + BitCause("D", r.stuckDataLo, 8, LoHint())
    + BitCause("A", r.stuckAddr, 16, AddrHint())
  }

  function UndrivenLine(): string { "bus not driven - BIOS ROM / " + "/CS / decode / cold joint\n" }

  function MismatchLine(cpFailed: set<nat>): string {
    "opcode mismatch 0x" + Hex2(MaskByte(cpFailed)) + " - ROM or data path\n"
  }

  function ReadCauses(r: Result): seq<string> {
    (if r.busUndriven then [UndrivenLine()] else [])
    + (if !Zero(r.cpFailed, 8) then [MismatchLine(r.cpFailed)] else [])
  }

  /** One line for every finding, in the order the firmware looks for them. */
  function CauseLines(r: Result): seq<string> { AnomalyCauses(r.anomalyFlags) + StuckCauses(r) + ReadCauses(r) }

  function ShortName(p: int): string {
    match p
    case 0 => "Reset vector"
    case 1 => "BIOS early init"
    case 2 => "Slot/RAM probe"
    case 3 => "BIOS init done"
    case 4 => "BASIC handoff"
    case 5 => "BASIC coldstart"
    case 6 => "BASIC BIOS vecs"
    case 7 => "VDP init"
    case 8 => "Cart scan"
    case _ => "?"
  }

  function CompleteLine(): string {
    "boot reached cart-scan; " + ("CPU/RAM/ROM/BASIC path " + ("exercised (VDP/PSG/kbd " + "not proven)\n"))
  }

  function StalledLine(firstMissing: int): string {
    "boot stalled before " + (ShortName(firstMissing) + "; see Phases\n")
  }

  function Fallback(r: Result): string {
    if AllSeen(r.phaseFlags) then CompleteLine() else StalledLine(r.firstMissing)
  }

  /** The lines of the list: the findings, or the fallback alone. */
  function Lines(r: Result): seq<string> { if CauseLines(r) == [] then [Fallback(r)] else CauseLines(r) }

  function CausesText(r: Result): string { Concat(Lines(r)) }

  // ----- every piece of it is a line -----

  lemma NoClockIsLine()
    ensures OneLine(AnomalyLine(CLK_ABSENT))
  {
    JoinLine("no clock - xtal / ", "clock gen / CPU clk pin\n");
  }

  lemma OffFreqIsLine()
    ensures OneLine(AnomalyLine(CLK_OUT_OF_RANGE))
  {
    JoinLine("clock off-freq - ", "xtal / clock gen\n");
  }

  lemma ResetHeldIsLine()
    ensures OneLine(AnomalyLine(RESET_STUCK))
  {
    JoinLine("reset held - RC / ", "Schmitt / short to GND\n");
  }

  lemma NoCyclesIsLine()
    ensures OneLine(AnomalyLine(NO_BUS_CYCLES))
  {
    JoinLine("no bus cycles - Z80 or ", "addr-decode / ROM /CS\n");
  }

  lemma WaitLowIsLine()
    ensures OneLine(AnomalyLine(WAIT_STUCK_LOW))
  {
    JoinLine("/WAIT low - ", "wait-state source\n");
  }

  lemma {:induction false} BitNamesArePlain(letter: string, mask: set<nat>, n: nat)
    requires Plain(letter)
    ensures Plain(BitNames(letter, mask, n))
  {
    if n > 0 {
      BitNamesArePlain(letter, mask, n - 1);
      DecIsPlain(n - 1);
    }
  }

  lemma BitCauseIsLine(letter: string, mask: set<nat>, width: nat, hint: string)
    requires Plain(letter) && Plain(hint) && hint != ""
    ensures AllLines(BitCause(letter, mask, width, hint))
  {
    BitNamesArePlain(letter, mask, width);
    EndLine(hint);
    JoinLine(BitNames(letter, mask, width), hint + "\n");
  }

  lemma HiHintIsPlain()
    ensures Plain(HiHint()) && HiHint() != ""
  {
    JoinPlain("stuck hi - buffer ", "(LVC245) or driver");
  }

  lemma LoHintIsPlain()
    ensures Plain(LoHint()) && LoHint() != ""
  {
    JoinPlain("stuck lo - buffer ", "(LVC245) or driver");
  }

  lemma AddrHintIsPlain()
    ensures Plain(AddrHint()) && AddrHint() != ""
  {
    JoinPlain("stuck - line or ", "address decode");
  }

  lemma UndrivenIsLine()
    ensures OneLine(UndrivenLine())
  {
    JoinLine("bus not driven - BIOS ROM / ", "/CS / decode / cold joint\n");
  }

  lemma MismatchIsLine(cpFailed: set<nat>)
    ensures OneLine(MismatchLine(cpFailed))
  {
    JoinPlain("opcode mismatch 0x", Hex2(MaskByte(cpFailed)));
    JoinLine("opcode mismatch 0x" + Hex2(MaskByte(cpFailed)), " - ROM or data path\n");
  }

  lemma EarlyNameIsPlain(p: int)
    requires p <= 2
    ensures Plain(ShortName(p)) && ShortName(p) != ""
  {
  }

  lemma MiddleNameIsPlain(p: int)
    requires 3 <= p <= 5
    ensures Plain(ShortName(p)) && ShortName(p) != ""
  {
  }

  lemma LateNameIsPlain(p: int)
    requires p >= 6
    ensures Plain(ShortName(p)) && ShortName(p) != ""
  {
  }

  lemma ShortNameIsPlain(p: int)
    ensures Plain(ShortName(p)) && ShortName(p) != ""
  {
    if p <= 2 { EarlyNameIsPlain(p); } else if p <= 5 { MiddleNameIsPlain(p); } else { LateNameIsPlain(p); }
  }

  lemma CompleteIsLine()
    ensures OneLine(CompleteLine())
  {
    CompleteEnd();
    JoinLine("boot reached cart-scan; ", "CPU/RAM/ROM/BASIC path " + ("exercised (VDP/PSG/kbd " + "not proven)\n"));
  }

  lemma CompleteEnd()
    ensures OneLine("CPU/RAM/ROM/BASIC path " + ("exercised (VDP/PSG/kbd " + "not proven)\n"))
  {
    JoinLine("exercised (VDP/PSG/kbd ", "not proven)\n");
    JoinLine("CPU/RAM/ROM/BASIC path ", "exercised (VDP/PSG/kbd " + "not proven)\n");
  }

  lemma StalledIsLine(firstMissing: int)
    ensures OneLine(StalledLine(firstMissing))
  {
    ShortNameIsPlain(firstMissing);
    JoinLine(ShortName(firstMissing), "; see Phases\n");
    JoinLine("boot stalled before ", ShortName(firstMissing) + "; see Phases\n");
  }

  lemma FallbackIsLine(r: Result)
    ensures OneLine(Fallback(r))
  {
    CompleteIsLine();
    StalledIsLine(r.firstMissing);
  }

  lemma AnomalyCausesAreLines(flags: set<nat>)
    ensures AllLines(AnomalyCauses(flags))
  {
    NoClockIsLine();
    OffFreqIsLine();
    ResetHeldIsLine();
    NoCyclesIsLine();
    WaitLowIsLine();
  }

  lemma StuckCausesAreLines(r: Result)
    ensures AllLines(StuckCauses(r))
  {
    HiHintIsPlain();
    LoHintIsPlain();
    AddrHintIsPlain();
    BitCauseIsLine("D", r.stuckDataHi, 8, HiHint());
    BitCauseIsLine("D", r.stuckDataLo, 8, LoHint());
    BitCauseIsLine("A", r.stuckAddr, 16, AddrHint());
  }

  lemma LinesAreLines(r: Result)
    ensures AllLines(CauseLines(r)) && AllLines(Lines(r))
  {
    AnomalyCausesAreLines(r.anomalyFlags);
    StuckCausesAreLines(r);
    UndrivenIsLine();
    MismatchIsLine(r.cpFailed);
    FallbackIsLine(r);
  }

  // ----- no finding masks another -----

  function One(b: bool): nat { if b then 1 else 0 }

  function CountFlags(flags: set<nat>, n: nat): nat {
    if n == 0 then 0 else CountFlags(flags, n - 1) + One(n - 1 in flags)
  }

  lemma {:induction false} FlagCount(flags: set<nat>, n: nat)
    ensures |(set a: nat | a < n && a in flags)| == CountFlags(flags, n)
  {
    var below := set a: nat | a < n && a in flags;
    if n == 0 {
      assert below == {};
    } else {
      FlagCount(flags, n - 1);
      var less := set a: nat | a < n - 1 && a in flags;
      if n - 1 in flags {
        assert below == less + {n - 1};
        InsertSize(less, n - 1);
      } else {
        assert below == less;
      }
    }
  }

  lemma AnomalyCauseCount(flags: set<nat>)
    ensures |AnomalyCauses(flags)| == |(set a: nat | a < 5 && a in flags)|
  {
    FlagCount(flags, 5);
    assert CountFlags(flags, 1) == One(0 in flags);
    assert CountFlags(flags, 2) == CountFlags(flags, 1) + One(1 in flags);
    assert CountFlags(flags, 4) == CountFlags(flags, 2) + One(2 in flags) + One(3 in flags);
  }

  /** Exactly one line for each anomaly flag, each kind of stuck line, an undriven bus and a failed
    * checkpoint: no finding hides another. */
  lemma OneLinePerFinding(r: Result)
    ensures |CauseLines(r)| == |(set a: nat | a < 5 && a in r.anomalyFlags)|
      + One(!Zero(r.stuckDataHi, 8)) + One(!Zero(r.stuckDataLo, 8)) + One(!Zero(r.stuckAddr, 16))
      + One(r.busUndriven) + One(!Zero(r.cpFailed, 8))
  {
    AnomalyCauseCount(r.anomalyFlags);
  }

  /** Read back line by line, the full text is those lines, or the fallback iff there is none. */
  lemma CausesReadBack(r: Result)
    ensures SplitLines(CausesText(r)) == if CauseLines(r) == [] then [Fallback(r)] else CauseLines(r)
    ensures AllLines(SplitLines(CausesText(r)))
  {
    LinesAreLines(r);
    SplitOfConcat(Lines(r), "");
    assert CausesText(r) + "" == CausesText(r);
  }

  // ----- writing it -----

  /** `if (wanted) o = appendf(...)`, one line of the list. */
  method AppendLine(buf: array<char>, off: nat, ghost ls: seq<string>, wanted: bool, line: string) returns (o: nat)
    requires Holds(buf, off, Concat(ls))
    modifies buf
    ensures Holds(buf, o, Concat(ls + if wanted then [line] else []))
  {
    ConcatStep(ls, line);
    assert ls + [] == ls;
    o := off;
    if wanted { o := Append(buf, off, Concat(ls), line); }
  }

  lemma BitNamesNext(soFar: string, letter: string, mask: set<nat>, k: nat, name: string)
    requires name == BitName(letter, k)
    ensures soFar + BitNames(letter, mask, k + 1)
         == if k in mask then soFar + BitNames(letter, mask, k) + name else soFar + BitNames(letter, mask, k)
  {
    Assoc(soFar, BitNames(letter, mask, k), name);
  }

  /** `if (mask & (1u << i)) o = appendf(...)`. */
  method AppendBitName(buf: array<char>, off: nat, ghost soFar: string, letter: string, mask: set<nat>, k: nat)
    returns (o: nat)
    requires Holds(buf, off, soFar + BitNames(letter, mask, k))
    modifies buf
    ensures Holds(buf, o, soFar + BitNames(letter, mask, k + 1))
  {
    var name := BitName(letter, k);
    BitNamesNext(soFar, letter, mask, k, name);
    o := off;
    if k in mask { o := Append(buf, off, soFar + BitNames(letter, mask, k), name); }
  }

  method AppendBitNames(buf: array<char>, off: nat, ghost soFar: string, letter: string, mask: set<nat>, n: nat)
    returns (o: nat)
    requires Holds(buf, off, soFar)
    modifies buf
    ensures Holds(buf, o, soFar + BitNames(letter, mask, n))
  {
    o := off;
    assert soFar + "" == soFar;
    for i := 0 to n
      invariant Holds(buf, o, soFar + BitNames(letter, mask, i))
    {
      o := AppendBitName(buf, o, soFar, letter, mask, i);
    }
  }

  method AppendCauseBits(buf: array<char>, off: nat, ghost ls: seq<string>,
                         letter: string, mask: set<nat>, width: nat, hint: string) returns (o: nat)
    requires Holds(buf, off, Concat(ls))
    modifies buf
    ensures Holds(buf, o, Concat(ls + BitCause(letter, mask, width, hint)))
  {
    assert ls + [] == ls;
    if Zero(mask, width) { return off; }
    ghost var names := BitNames(letter, mask, width);
    o := AppendBitNames(buf, off, Concat(ls), letter, mask, width);
    o := Append(buf, o, Concat(ls) + names, hint + "\n");
    ConcatStep(ls, names + (hint + "\n"));
    Assoc(Concat(ls), names, hint + "\n");
  }

  method AppendAnomaly(buf: array<char>, off: nat, ghost ls: seq<string>, flags: set<nat>, a: nat) returns (o: nat)
    requires Holds(buf, off, Concat(ls))
    modifies buf
    ensures Holds(buf, o, Concat(ls + AnomalyCause(flags, a)))
  {
    o := AppendLine(buf, off, ls, a in flags, AnomalyLine(a));
  }

  method AppendAnomalyCauses(buf: array<char>, off: nat, flags: set<nat>) returns (o: nat)
    requires Holds(buf, off, "")
    modifies buf
    ensures Holds(buf, o, Concat(AnomalyCauses(flags)))
  {
    ghost var ls: seq<string> := [];
    o := AppendAnomaly(buf, off, ls, flags, CLK_ABSENT);
    ls := ls + AnomalyCause(flags, CLK_ABSENT);
    o := AppendAnomaly(buf, o, ls, flags, CLK_OUT_OF_RANGE);
    ls := ls + AnomalyCause(flags, CLK_OUT_OF_RANGE);
    o := AppendAnomaly(buf, o, ls, flags, RESET_STUCK);
    ls := ls + AnomalyCause(flags, RESET_STUCK);
    o := AppendAnomaly(buf, o, ls, flags, NO_BUS_CYCLES);
    ls := ls + AnomalyCause(flags, NO_BUS_CYCLES);
    o := AppendAnomaly(buf, o, ls, flags, WAIT_STUCK_LOW);
    ls := ls + AnomalyCause(flags, WAIT_STUCK_LOW);
    assert ls == AnomalyCauses(flags);
  }

  method AppendStuckCauses(buf: array<char>, off: nat, ghost ls: seq<string>, r: Result) returns (o: nat)
    requires Holds(buf, off, Concat(ls))
    modifies buf
    ensures Holds(buf, o, Concat(ls + StuckCauses(r)))
  {
    var hi, lo, addr := HiHint(), LoHint(), AddrHint();
    o := AppendCauseBits(buf, off, ls, "D", r.stuckDataHi, 8, hi);
    ghost var ls1 := ls + BitCause("D", r.stuckDataHi, 8, hi);
    o := AppendCauseBits(buf, o, ls1, "D", r.stuckDataLo, 8, lo);
    ghost var ls2 := ls1 + BitCause("D", r.stuckDataLo, 8, lo);
    o := AppendCauseBits(buf, o, ls2, "A", r.stuckAddr, 16, addr);
    assert ls2 + BitCause("A", r.stuckAddr, 16, addr) == ls + StuckCauses(r);
  }

  method AppendReadCauses(buf: array<char>, off: nat, ghost ls: seq<string>, r: Result) returns (o: nat)
    requires Holds(buf, off, Concat(ls))
    modifies buf
    ensures Holds(buf, o, Concat(ls + ReadCauses(r)))
  {
    o := AppendLine(buf, off, ls, r.busUndriven, UndrivenLine());
    ghost var ls1 := ls + if r.busUndriven then [UndrivenLine()] else [];
    o := AppendLine(buf, o, ls1, !Zero(r.cpFailed, 8), MismatchLine(r.cpFailed));
    assert ls1 + (if !Zero(r.cpFailed, 8) then [MismatchLine(r.cpFailed)] else []) == ls + ReadCauses(r);
  }

  /** `boot_diag_possible_causes`: for every result and every non-empty buffer, what is written is
    * the cause list of an unbounded buffer, cut to fit and NUL-terminated. */
  method PossibleCauses(r: Result, buf: array<char>) returns (o: nat)
    requires buf.Length > 0
    modifies buf
    ensures Holds(buf, o, CausesText(r))
  {
    o := 0;
    buf[0] := '\0';
    o := AppendAnomalyCauses(buf, o, r.anomalyFlags);
    o := AppendStuckCauses(buf, o, AnomalyCauses(r.anomalyFlags), r);
    o := AppendReadCauses(buf, o, AnomalyCauses(r.anomalyFlags) + StuckCauses(r), r);
    assert Holds(buf, o, Concat(CauseLines(r)));
    if o == 0 {
      // Nothing was found, or nothing fits: a buffer of one char stays empty either way.
      o := AppendFallback(buf, r);
    }
  }

  method AppendFallback(buf: array<char>, r: Result) returns (o: nat)
    requires Holds(buf, 0, Concat(CauseLines(r)))
    modifies buf
    ensures Holds(buf, o, CausesText(r))
  {
    o := Append(buf, 0, "", Fallback(r));
    LinesAreLines(r);
    if CauseLines(r) != [] { NonEmptyConcat(CauseLines(r)); }
    ConcatOne(Fallback(r));
    assert "" + Fallback(r) == Fallback(r);
  }
}
