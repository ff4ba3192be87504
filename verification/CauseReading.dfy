/** What a reader of the cause list learns from it: each finding of the result is named by a line of its own,
  * and no line names a finding that is not there. */
module CauseReading {
  import opened Words
  import opened TextBuffer
  import opened TextReading
  import opened BootDiag
  import opened Causes
  import BD = BootDetect

  // ----- the names of bits in front of a hint -----

  lemma NameHere(a: string, c: char, m: nat, post: string)
    ensures NameAt(a + (BitName([c], m) + post), |a|, c, m)
  {
    var s := a + (BitName([c], m) + post);
    var t := Dec(m);
    DecReadsBack(m);
    assert BitName([c], m) == [c] + t + " ";
    assert s[|a| + 1..|a| + 1 + |t|] == t;
    assert s[|a| + 1 + |t|] == ' ';
  }

  lemma OnlyFirst(c: char, m: nat, i: nat)
    requires !IsDigit(c) && c != ' ' && i < |BitName([c], m)|
    ensures BitName([c], m)[i] == c <==> i == 0
  {
    DecReadsBack(m);
    assert BitName([c], m) == [c] + Dec(m) + " ";
    if 0 < i < |Dec(m)| + 1 { assert BitName([c], m)[i] == Dec(m)[i - 1]; }
  }

  lemma NamesNext(c: char, mask: set<nat>, n: nat, post: string) returns (rest: string)
    requires n > 0
    ensures rest == (if n - 1 in mask then BitName([c], n - 1) + post else post)
    ensures BitNames([c], mask, n) + post == BitNames([c], mask, n - 1) + rest
  {
    rest := if n - 1 in mask then BitName([c], n - 1) + post else post;
    Assoc(BitNames([c], mask, n - 1), BitName([c], n - 1), post);
  }

  /** Wherever the letter stands among the names, a bit of the mask is named. */
  lemma {:induction false} LetterNames(s: string, c: char, mask: set<nat>, n: nat, post: string, j: nat) returns (m: nat)
    requires s == BitNames([c], mask, n) + post && !IsDigit(c) && c != ' '
    requires j < |BitNames([c], mask, n)| && s[j] == c
    ensures m < n && m in mask && NameAt(s, j, c, m)
  {
    var rest := NamesNext(c, mask, n, post);
    var before := BitNames([c], mask, n - 1);
    if j < |before| {
      m := LetterNames(s, c, mask, n - 1, rest, j);
    } else {
      m := n - 1;
      LastName(s, before, c, m, post, j);
    }
  }

  lemma LastName(s: string, before: string, c: char, m: nat, post: string, j: nat)
    requires s == before + (BitName([c], m) + post) && !IsDigit(c) && c != ' '
    requires |before| <= j < |before| + |BitName([c], m)| && s[j] == c
    ensures NameAt(s, j, c, m)
  {
    assert s[j] == BitName([c], m)[j - |before|];
    OnlyFirst(c, m, j - |before|);
    NameHere(before, c, m, post);
  }

  /** Every bit of the mask is named. */
  lemma {:induction false} BitIsNamed(s: string, c: char, mask: set<nat>, n: nat, post: string, k: nat) returns (j: nat)
    requires s == BitNames([c], mask, n) + post && k < n && k in mask
    ensures j < |s| && NameAt(s, j, c, k)
  {
    var rest := NamesNext(c, mask, n, post);
    var before := BitNames([c], mask, n - 1);
    if k < n - 1 {
      j := BitIsNamed(s, c, mask, n - 1, rest, k);
    } else {
      j := |before|;
      NameHere(before, c, k, post);
    }
  }

  lemma AmongNames(names: string, post: string, c: char, j: nat)
    requires Lacks(post, c) && j < |names + post| && (names + post)[j] == c
    ensures j < |names| && names[j] == c
  {
  }

  lemma BitsAreNamed(c: char, mask: set<nat>, n: nat, post: string, k: nat)
    requires !IsDigit(c) && c != ' ' && Lacks(post, c)
    ensures Names(BitNames([c], mask, n) + post, c, k) <==> k < n && k in mask
  {
    var names := BitNames([c], mask, n);
    var s := names + post;
    if k < n && k in mask {
      var j := BitIsNamed(s, c, mask, n, post, k);
    }
    if Names(s, c, k) {
      var j: nat :| j < |s| && NameAt(s, j, c, k);
      AmongNames(names, post, c, j);
      var m := LetterNames(s, c, mask, n, post, j);
      OneName(s, j, c, k, m);
    }
  }

  // ----- how each line ends -----

  lemma NoClockTail()
    ensures Tail(AnomalyLine(CLK_ABSENT)) == "in\n"
  {
    TailOf("no clock - xtal / ", "clock gen / CPU clk pin\n");
  }

  lemma OffFreqTail()
    ensures Tail(AnomalyLine(CLK_OUT_OF_RANGE)) == "en\n"
  {
    TailOf("clock off-freq - ", "xtal / clock gen\n");
  }

  lemma ResetHeldTail()
    ensures Tail(AnomalyLine(RESET_STUCK)) == "ND\n"
  {
    TailOf("reset held - RC / ", "Schmitt / short to GND\n");
  }

  lemma NoCyclesTail()
    ensures Tail(AnomalyLine(NO_BUS_CYCLES)) == "CS\n"
  {
    TailOf("no bus cycles - Z80 or ", "addr-decode / ROM /CS\n");
  }

  lemma WaitLowTail()
    ensures Tail(AnomalyLine(WAIT_STUCK_LOW)) == "ce\n"
  {
    TailOf("/WAIT low - ", "wait-state source\n");
  }

  lemma AnomalyTail(a: nat)
    requires a <= WAIT_STUCK_LOW
    ensures Tail(AnomalyLine(a)) == match a case 0 => "in\n" case 1 => "en\n" case 2 => "ND\n" case 3 => "CS\n" case _ => "ce\n"
  {
    NoClockTail();
    OffFreqTail();
    ResetHeldTail();
    NoCyclesTail();
    WaitLowTail();
  }

  function HiEnd(): string { HiHint() + "\n" }

  function LoEnd(): string { LoHint() + "\n" }

  function AddrEnd(): string { AddrHint() + "\n" }

  lemma DriverTail(a: string)
    ensures Tail(a + "(LVC245) or driver" + "\n") == "er\n"
  {
    Assoc(a, "(LVC245) or driver", "\n");
    TailOf(a, "(LVC245) or driver" + "\n");
  }

  lemma HiTail()
    ensures Tail(HiEnd()) == "er\n" && |HiEnd()| == 37
  {
    DriverTail("stuck hi - buffer ");
  }

  lemma LoTail()
    ensures Tail(LoEnd()) == "er\n" && |LoEnd()| == 37
  {
    DriverTail("stuck lo - buffer ");
  }

  lemma AddrTail()
    ensures Tail(AddrEnd()) == "de\n" && |AddrEnd()| >= 3
  {
    Assoc("stuck - line or ", "address decode", "\n");
    TailOf("stuck - line or ", "address decode" + "\n");
  }

  lemma UndrivenTail()
    ensures Tail(UndrivenLine()) == "nt\n"
  {
    TailOf("bus not driven - BIOS ROM / ", "/CS / decode / cold joint\n");
  }

  lemma MismatchTail(cpFailed: set<nat>)
    ensures Tail(MismatchLine(cpFailed)) == "th\n" && EndsIn(MismatchLine(cpFailed), " - ROM or data path\n")
  {
    TailOf("opcode mismatch 0x" + Hex2(MaskByte(cpFailed)), " - ROM or data path\n");
  }

  lemma CompleteTail()
    ensures Tail(CompleteLine()) == "n)\n"
  {
    TailOf("exercised (VDP/PSG/kbd ", "not proven)\n");
    TailOf("CPU/RAM/ROM/BASIC path ", "exercised (VDP/PSG/kbd " + "not proven)\n");
    TailOf("boot reached cart-scan; ", "CPU/RAM/ROM/BASIC path " + ("exercised (VDP/PSG/kbd " + "not proven)\n"));
  }

  lemma StalledTail(firstMissing: int)
    ensures Tail(StalledLine(firstMissing)) == "es\n"
  {
    TailOf(ShortName(firstMissing), "; see Phases\n");
    TailOf("boot stalled before ", ShortName(firstMissing) + "; see Phases\n");
  }

  lemma FallbackTail(r: Result)
    ensures Tail(Fallback(r)) == "n)\n" || Tail(Fallback(r)) == "es\n"
  {
    CompleteTail();
    StalledTail(r.firstMissing);
  }

  /** The two data hints are equally long and differ. */
  lemma HiIsNotLo()
    ensures HiEnd() != LoEnd()
  {
    assert HiHint()[6] == 'h' && LoHint()[6] == 'l';
    assert HiEnd()[6] == 'h' && LoEnd()[6] == 'l';
  }

  // ----- which lines there are -----

  function HiLine(r: Result): string { BitNames("D", r.stuckDataHi, 8) + HiEnd() }

  function LoLine(r: Result): string { BitNames("D", r.stuckDataLo, 8) + LoEnd() }

  function AddrLine(r: Result): string { BitNames("A", r.stuckAddr, 16) + AddrEnd() }

  lemma AnomalyLineIs(flags: set<nat>, l: string)
    ensures l in AnomalyCauses(flags) <==> exists a: nat :: a <= WAIT_STUCK_LOW && a in flags && l == AnomalyLine(a)
  {
    assert forall a: nat :: a <= WAIT_STUCK_LOW ==> (l in AnomalyCause(flags, a) <==> a in flags && l == AnomalyLine(a));
    assert l in AnomalyCauses(flags) <==>
           l in AnomalyCause(flags, CLK_ABSENT) || l in AnomalyCause(flags, CLK_OUT_OF_RANGE)
           || l in AnomalyCause(flags, RESET_STUCK) || l in AnomalyCause(flags, NO_BUS_CYCLES)
           || l in AnomalyCause(flags, WAIT_STUCK_LOW);
  }

  lemma StuckLineIs(r: Result, l: string)
    ensures l in StuckCauses(r) <==>
      || (!Zero(r.stuckDataHi, 8) && l == HiLine(r)) || (!Zero(r.stuckDataLo, 8) && l == LoLine(r))
      || (!Zero(r.stuckAddr, 16) && l == AddrLine(r))
  {
  }

  lemma ReadLineIs(r: Result, l: string)
    ensures l in ReadCauses(r) <==>
      (r.busUndriven && l == UndrivenLine()) || (!Zero(r.cpFailed, 8) && l == MismatchLine(r.cpFailed))
  {
  }

  lemma LineIs(r: Result, l: string)
    ensures l in SplitLines(CausesText(r)) <==>
      || l in AnomalyCauses(r.anomalyFlags) || l in StuckCauses(r) || l in ReadCauses(r)
      || (CauseLines(r) == [] && l == Fallback(r))
  {
    CausesReadBack(r);
  }

  // ----- a line's end tells what it is -----

  lemma AnomalyByTail(flags: set<nat>, l: string, a: nat)
    requires l in AnomalyCauses(flags) && a <= WAIT_STUCK_LOW && Tail(l) == Tail(AnomalyLine(a))
    ensures a in flags && l == AnomalyLine(a)
  {
    AnomalyLineIs(flags, l);
    var b: nat :| b <= WAIT_STUCK_LOW && b in flags && l == AnomalyLine(b);
    AnomalyTail(a);
    AnomalyTail(b);
    if a != b { DifferentTails(a, b); }
  }

  lemma DifferentTails(a: nat, b: nat)
    requires a <= WAIT_STUCK_LOW && b <= WAIT_STUCK_LOW && a != b
    ensures Tail(AnomalyLine(a)) != Tail(AnomalyLine(b))
  {
    AnomalyTail(a);
    AnomalyTail(b);
    assert "in\n"[0] == 'i' && "en\n"[0] == 'e' && "ND\n"[0] == 'N' && "CS\n"[0] == 'C' && "ce\n"[0] == 'c';
  }

  /** The last letters of the lines that are not anomalies. */
  lemma OtherTails(r: Result, l: string)
    requires l in StuckCauses(r) || l in ReadCauses(r) || l == Fallback(r)
    ensures Tail(l) in {"er\n", "de\n", "nt\n", "th\n", "n)\n", "es\n"}
  {
    StuckLineIs(r, l);
    ReadLineIs(r, l);
    HiTail();
    LoTail();
    AddrTail();
    TailOf(BitNames("D", r.stuckDataHi, 8), HiEnd());
    TailOf(BitNames("D", r.stuckDataLo, 8), LoEnd());
    TailOf(BitNames("A", r.stuckAddr, 16), AddrEnd());
    UndrivenTail();
    MismatchTail(r.cpFailed);
    FallbackTail(r);
  }

  lemma AnomalyTailIsOwn(a: nat)
    requires a <= WAIT_STUCK_LOW
    ensures Tail(AnomalyLine(a)) !in {"er\n", "de\n", "nt\n", "th\n", "n)\n", "es\n"}
  {
    AnomalyTail(a);
    assert "er\n"[1] == 'r' && "de\n"[0] == 'd' && "nt\n"[1] == 't' && "th\n"[1] == 'h' && "n)\n"[1] == ')' && "es\n"[1] == 's';
    assert "in\n"[1] == 'n' && "en\n"[1] == 'n' && "ND\n"[1] == 'D' && "CS\n"[1] == 'S' && "ce\n"[1] == 'e' && "ce\n"[0] == 'c';
  }

  /** An anomaly's line is in the list iff its flag is in the result. */
  lemma AnomalyNamed(r: Result, a: nat)
    requires a <= WAIT_STUCK_LOW
    ensures AnomalyLine(a) in SplitLines(CausesText(r)) <==> a in r.anomalyFlags
  {
    var l := AnomalyLine(a);
    LineIs(r, l);
    AnomalyLineIs(r.anomalyFlags, l);
    AnomalyTailIsOwn(a);
    if l in StuckCauses(r) || l in ReadCauses(r) || l == Fallback(r) { OtherTails(r, l); }
    if l in AnomalyCauses(r.anomalyFlags) { AnomalyByTail(r.anomalyFlags, l, a); }
  }

  lemma {:induction false} DataLineIs(r: Result, l: string)
    requires l in SplitLines(CausesText(r)) && Tail(l) == "er\n"
    ensures (!Zero(r.stuckDataHi, 8) && l == HiLine(r)) || (!Zero(r.stuckDataLo, 8) && l == LoLine(r))
  {
    LineIs(r, l);
    AnomalyLineIs(r.anomalyFlags, l);
    if a: nat :| a <= WAIT_STUCK_LOW && a in r.anomalyFlags && l == AnomalyLine(a) { AnomalyTailIsOwn(a); }
    StuckLineIs(r, l);
    ReadLineIs(r, l);
    AddrTail();
    TailOf(BitNames("A", r.stuckAddr, 16), AddrEnd());
    UndrivenTail();
    MismatchTail(r.cpFailed);
    FallbackTail(r);
    DriverIsOwn();
  }

  lemma SecondLetters()
    ensures "er\n"[1] == 'r' && "de\n"[1] == 'e' && "nt\n"[1] == 't' && "th\n"[1] == 'h'
    ensures "n)\n"[1] == ')' && "es\n"[1] == 's'
  {
  }

  lemma DriverIsOwn()
    ensures "er\n" !in {"de\n", "nt\n", "th\n", "n)\n", "es\n"}
  {
    SecondLetters();
  }

  /** The lines that are neither anomalies nor data lines, each by its last letters. */
  lemma {:induction false} OtherLineIs(r: Result, l: string)
    requires l in SplitLines(CausesText(r))
    ensures Tail(l) == "de\n" ==> !Zero(r.stuckAddr, 16) && l == AddrLine(r)
    ensures Tail(l) == "nt\n" ==> r.busUndriven && l == UndrivenLine()
    ensures Tail(l) == "th\n" ==> !Zero(r.cpFailed, 8) && l == MismatchLine(r.cpFailed)
  {
    LineIs(r, l);
    AnomalyLineIs(r.anomalyFlags, l);
    if a: nat :| a <= WAIT_STUCK_LOW && a in r.anomalyFlags && l == AnomalyLine(a) { AnomalyTailIsOwn(a); }
    StuckLineIs(r, l);
    ReadLineIs(r, l);
    HiTail();
    LoTail();
    AddrTail();
    TailOf(BitNames("D", r.stuckDataHi, 8), HiEnd());
    TailOf(BitNames("D", r.stuckDataLo, 8), LoEnd());
    TailOf(BitNames("A", r.stuckAddr, 16), AddrEnd());
    UndrivenTail();
    MismatchTail(r.cpFailed);
    FallbackTail(r);
    OthersDiffer();
  }

  lemma OthersDiffer()
    ensures "er\n" !in {"de\n", "nt\n", "th\n"} && "n)\n" !in {"de\n", "nt\n", "th\n"} && "es\n" !in {"de\n", "nt\n", "th\n"}
    ensures "de\n" !in {"nt\n", "th\n"} && "nt\n" != "th\n"
  {
    SecondLetters();
  }

  // ----- what the list says -----

  /** The five anomaly texts, in the order of their bits. */
  const ANOMALY_CAUSES := ["no clock - xtal / " + "clock gen / CPU clk pin\n", "clock off-freq - " + "xtal / clock gen\n",
                           "reset held - RC / " + "Schmitt / short to GND\n", "no bus cycles - Z80 or " + "addr-decode / ROM /CS\n",
                           "/WAIT low - " + "wait-state source\n"]

  lemma AnomalyHasCause(a: nat)
    requires a <= WAIT_STUCK_LOW
    ensures |ANOMALY_CAUSES| == 5 && AnomalyLine(a) == ANOMALY_CAUSES[a]
  {
  }

  /** Each of the five texts stands in the list iff its flag is set. */
  lemma AnomaliesAreNamed(r: Result, a: nat)
    requires a <= WAIT_STUCK_LOW
    ensures |ANOMALY_CAUSES| == 5
    ensures ANOMALY_CAUSES[a] in SplitLines(CausesText(r)) <==> a in r.anomalyFlags
  {
    AnomalyHasCause(a);
    AnomalyNamed(r, a);
  }

  /** Some line of the list ends like this. */
  ghost predicate SomeLineEnds(r: Result, end: string) { exists l :: l in SplitLines(CausesText(r)) && EndsIn(l, end) }

  /** Every line that ends like this names bit k with the letter c iff the bit is one of the mask. */
  ghost predicate LinesName(r: Result, end: string, c: char, k: nat, named: bool) {
    forall l :: l in SplitLines(CausesText(r)) && EndsIn(l, end) ==> (Names(l, c, k) <==> named)
  }

  lemma HiLineOnly(r: Result, l: string)
    requires l in SplitLines(CausesText(r)) && EndsIn(l, HiEnd())
    ensures !Zero(r.stuckDataHi, 8) && l == HiLine(r)
  {
    HiTail();
    LoTail();
    SameTail(l, HiEnd());
    DataLineIs(r, l);
    HiIsNotLo();
    EndsInOwn(BitNames("D", r.stuckDataLo, 8), LoEnd(), HiEnd());
  }

  lemma LoLineOnly(r: Result, l: string)
    requires l in SplitLines(CausesText(r)) && EndsIn(l, LoEnd())
    ensures !Zero(r.stuckDataLo, 8) && l == LoLine(r)
  {
    HiTail();
    LoTail();
    SameTail(l, LoEnd());
    DataLineIs(r, l);
    HiIsNotLo();
    EndsInOwn(BitNames("D", r.stuckDataHi, 8), HiEnd(), LoEnd());
  }

  lemma AddrLineOnly(r: Result, l: string)
    requires l in SplitLines(CausesText(r)) && EndsIn(l, AddrEnd())
    ensures !Zero(r.stuckAddr, 16) && l == AddrLine(r)
  {
    AddrTail();
    SameTail(l, AddrEnd());
    OtherLineIs(r, l);
  }

  lemma HiLacksD()
    ensures Lacks(HiEnd(), 'D')
  {
    JoinLacks("stuck hi - buffer ", "(LVC245) or driver", 'D');
    JoinLacks(HiHint(), "\n", 'D');
  }

  lemma LoLacksD()
    ensures Lacks(LoEnd(), 'D')
  {
    JoinLacks("stuck lo - buffer ", "(LVC245) or driver", 'D');
    JoinLacks(LoHint(), "\n", 'D');
  }

  lemma AddrLacksA()
    ensures Lacks(AddrEnd(), 'A')
  {
    JoinLacks("stuck - line or ", "address decode", 'A');
    JoinLacks(AddrHint(), "\n", 'A');
  }

  /** A line about data bits stuck high stands in the list iff some bit is, and it names just those bits. */
  lemma StuckHighIsNamed(r: Result, k: nat)
    ensures SomeLineEnds(r, "stuck hi - buffer " + "(LVC245) or driver" + "\n") <==> !Zero(r.stuckDataHi, 8)
    ensures LinesName(r, "stuck hi - buffer " + "(LVC245) or driver" + "\n", 'D', k, k < 8 && k in r.stuckDataHi)
  {
    HiLacksD();
    BitsAreNamed('D', r.stuckDataHi, 8, HiEnd(), k);
    forall l | l in SplitLines(CausesText(r)) && EndsIn(l, HiEnd()) ensures !Zero(r.stuckDataHi, 8) && l == HiLine(r) {
      HiLineOnly(r, l);
    }
    StuckLineIs(r, HiLine(r));
    LineIs(r, HiLine(r));
    HiTail();
    TailOf(BitNames("D", r.stuckDataHi, 8), HiEnd());
  }

  /** Stuck low. */
  lemma StuckLowIsNamed(r: Result, k: nat)
    ensures SomeLineEnds(r, "stuck lo - buffer " + "(LVC245) or driver" + "\n") <==> !Zero(r.stuckDataLo, 8)
    ensures LinesName(r, "stuck lo - buffer " + "(LVC245) or driver" + "\n", 'D', k, k < 8 && k in r.stuckDataLo)
  {
    LoLacksD();
    BitsAreNamed('D', r.stuckDataLo, 8, LoEnd(), k);
    forall l | l in SplitLines(CausesText(r)) && EndsIn(l, LoEnd()) ensures !Zero(r.stuckDataLo, 8) && l == LoLine(r) {
      LoLineOnly(r, l);
    }
    StuckLineIs(r, LoLine(r));
    LineIs(r, LoLine(r));
    LoTail();
    TailOf(BitNames("D", r.stuckDataLo, 8), LoEnd());
  }

  /** Address lines. */
  lemma StuckAddressIsNamed(r: Result, k: nat)
    ensures SomeLineEnds(r, "stuck - line or " + "address decode" + "\n") <==> !Zero(r.stuckAddr, 16)
    ensures LinesName(r, "stuck - line or " + "address decode" + "\n", 'A', k, k < 16 && k in r.stuckAddr)
  {
    AddrLacksA();
    BitsAreNamed('A', r.stuckAddr, 16, AddrEnd(), k);
    forall l | l in SplitLines(CausesText(r)) && EndsIn(l, AddrEnd()) ensures !Zero(r.stuckAddr, 16) && l == AddrLine(r) {
      AddrLineOnly(r, l);
    }
    StuckLineIs(r, AddrLine(r));
    LineIs(r, AddrLine(r));
    AddrTail();
    TailOf(BitNames("A", r.stuckAddr, 16), AddrEnd());
  }

  /** The line about an undriven bus. */
  lemma UndrivenIsNamed(r: Result)
    ensures ("bus not driven - BIOS ROM / " + "/CS / decode / cold joint\n") in SplitLines(CausesText(r)) <==> r.busUndriven
  {
    var l := UndrivenLine();
    LineIs(r, l);
    ReadLineIs(r, l);
    UndrivenTail();
    if l in SplitLines(CausesText(r)) { OtherLineIs(r, l); }
  }

  /** The line about failed checkpoints: there iff one failed; its two hex digits are the mask. */
  lemma MismatchIsNamed(r: Result, k: nat)
    ensures SomeLineEnds(r, " - ROM or data path\n") <==> !Zero(r.cpFailed, 8)
    ensures forall l :: l in SplitLines(CausesText(r)) && EndsIn(l, " - ROM or data path\n") ==>
      exists hex :: l == "opcode mismatch 0x" + hex + " - ROM or data path\n" && |hex| == 2
                    && (Bit(ReadHex2(hex), k) <==> k < 8 && k in r.cpFailed)
  {
    HexOfMask(r.cpFailed, k);
    forall l | l in SplitLines(CausesText(r)) && EndsIn(l, " - ROM or data path\n")
      ensures !Zero(r.cpFailed, 8) && l == MismatchLine(r.cpFailed)
    {
      MismatchOnly(r, l);
    }
    LineIs(r, MismatchLine(r.cpFailed));
    ReadLineIs(r, MismatchLine(r.cpFailed));
    MismatchTail(r.cpFailed);
  }

  lemma MismatchOnly(r: Result, l: string)
    requires l in SplitLines(CausesText(r)) && EndsIn(l, " - ROM or data path\n")
    ensures !Zero(r.cpFailed, 8) && l == MismatchLine(r.cpFailed)
  {
    SameTail(l, " - ROM or data path\n");
    OtherLineIs(r, l);
  }

  // ----- when nothing was found -----

  predicate NoFinding(r: Result) {
    && (forall a: nat :: a <= WAIT_STUCK_LOW ==> a !in r.anomalyFlags)
    && Zero(r.stuckDataHi, 8) && Zero(r.stuckDataLo, 8) && Zero(r.stuckAddr, 16) && !r.busUndriven && Zero(r.cpFailed, 8)
  }

  lemma NoAnomalyLine(flags: set<nat>)
    ensures AnomalyCauses(flags) == [] <==> forall a: nat :: a <= WAIT_STUCK_LOW ==> a !in flags
  {
    if a: nat :| a <= WAIT_STUCK_LOW && a in flags {
      AnomalyLineIs(flags, AnomalyLine(a));
    }
  }

  lemma NoLineIffNoFinding(r: Result)
    ensures CauseLines(r) == [] <==> NoFinding(r)
  {
    NoAnomalyLine(r.anomalyFlags);
  }

  lemma FallbackTailIsOwn()
    ensures "n)\n" !in {"er\n", "de\n", "nt\n", "th\n"} && "es\n" !in {"er\n", "de\n", "nt\n", "th\n"}
  {
    SecondLetters();
  }

  lemma FindingTail(r: Result, l: string)
    requires l in StuckCauses(r) || l in ReadCauses(r)
    ensures Tail(l) in {"er\n", "de\n", "nt\n", "th\n"}
  {
    StuckLineIs(r, l);
    ReadLineIs(r, l);
    HiTail();
    LoTail();
    AddrTail();
    TailOf(BitNames("D", r.stuckDataHi, 8), HiEnd());
    TailOf(BitNames("D", r.stuckDataLo, 8), LoEnd());
    TailOf(BitNames("A", r.stuckAddr, 16), AddrEnd());
    UndrivenTail();
    MismatchTail(r.cpFailed);
  }

  lemma FindingIsNoFallback(r: Result, l: string)
    requires Tail(l) == "n)\n" || Tail(l) == "es\n"
    ensures l !in CauseLines(r)
  {
    FallbackTailIsOwn();
    if l in StuckCauses(r) || l in ReadCauses(r) { FindingTail(r, l); }
    AnomalyLineIs(r.anomalyFlags, l);
    if a: nat :| a <= WAIT_STUCK_LOW && a in r.anomalyFlags && l == AnomalyLine(a) { AnomalyTailIsOwn(a); }
  }

  /** A line of the fallback's two kinds is the list iff nothing was found and it is the fallback. */
  lemma FallbackIff(r: Result, l: string)
    requires Tail(l) == "n)\n" || Tail(l) == "es\n"
    ensures SplitLines(CausesText(r)) == [l] <==> NoFinding(r) && l == Fallback(r)
  {
    CausesReadBack(r);
    NoLineIffNoFinding(r);
    FindingIsNoFallback(r, l);
    assert l in [l];
  }

  lemma StalledIsNotComplete(p: int)
    ensures StalledLine(p) != CompleteLine()
  {
    CompleteTail();
    StalledTail(p);
    assert "n)\n"[0] == 'n' && "es\n"[0] == 'e';
  }

  /** The list is the line of a complete boot iff nothing was found and all nine phases were seen. */
  lemma CompleteIsNamed(r: Result)
    ensures SplitLines(CausesText(r))
              == ["boot reached cart-scan; " + ("CPU/RAM/ROM/BASIC path " + ("exercised (VDP/PSG/kbd " + "not proven)\n"))]
       <==> NoFinding(r) && forall p: nat :: p < BD.PHASE_COUNT ==> p in r.phaseFlags
  {
    CompleteTail();
    FallbackIff(r, CompleteLine());
    StalledIsNotComplete(r.firstMissing);
  }

  /** The words of the nine phases, in boot order. */
  const PHASE_NAMES := ["Reset vector", "BIOS early init", "Slot/RAM probe", "BIOS init done", "BASIC handoff",
                        "BASIC coldstart", "BASIC BIOS vecs", "VDP init", "Cart scan"]

  lemma PhaseHasName(p: nat)
    requires p < BD.PHASE_COUNT
    ensures |PHASE_NAMES| == BD.PHASE_COUNT && ShortName(p) == PHASE_NAMES[p]
  {
  }

  /** With a phase missing, the list says before which one the boot stalled iff nothing was found. */
  lemma StalledIsNamed(r: Result, p: nat)
    requires r.firstMissing == BD.FirstMissing(r.phaseFlags, 0)
    requires p < BD.PHASE_COUNT && p !in r.phaseFlags && forall q: nat :: q < p ==> q in r.phaseFlags
    ensures |PHASE_NAMES| == BD.PHASE_COUNT
    ensures SplitLines(CausesText(r)) == ["boot stalled before " + (PHASE_NAMES[p] + "; see Phases\n")] <==> NoFinding(r)
  {
    PhaseHasName(p);
    BD.StatusExact(r.phaseFlags, p);
    StalledTail(p);
    FallbackIff(r, StalledLine(p));
  }
}
