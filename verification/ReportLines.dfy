/** The report as a list of lines: written out they are its text, and split at its newlines the text is
  * these lines again. */
module ReportLines {
  import opened Words
  import opened TextBuffer
  import opened BootDiag
  import opened Causes
  import BD = BootDetect
  import opened Report

  // ----- the lines of the report -----

  function OpeningLines(r: Result): seq<string> { [HeaderLine(r), "\n"] }

  function BulletLines(ps: seq<string>): seq<string> { if ps == [] then [] else [Bullet(ps[0])] + BulletLines(ps[1..]) }

  function CauseBullets(r: Result): seq<string> { BulletLines(SplitLines(Cut(CausesText(r), CAUSES_LEN - 1))) }

  function MaskLines(pfx: string, mask: set<nat>, width: nat): seq<string> {
    if Zero(mask, width) then [] else [BitsLine(pfx, mask, width)]
  }

  function StuckLines(r: Result): seq<string> {
    MaskLines("Data stuck HIGH:", r.stuckDataHi, 8) + MaskLines("Data stuck LOW:", r.stuckDataLo, 8)
    + MaskLines("Addr stuck:", r.stuckAddr, 16)
  }

  function FindingLines(r: Result): seq<string> {
    (if r.busUndriven then [UndrivenBullet()] else []) + (if !Zero(r.cpFailed, 8) then [FailedBullet(r.cpFailed)] else [])
  }

  function BusLines(r: Result): seq<string> { if BusOk(r) then ["- OK\n"] else StuckLines(r) + FindingLines(r) }

  function AnomalyLines(flags: set<nat>, n: nat): seq<string> {
    if n == 0 then [] else AnomalyLines(flags, n - 1) + if n - 1 in flags then [AnomalyBullet(n - 1)] else []
  }

  function AnomalyPart(flags: set<nat>): seq<string> {
    if Zero(flags, 16) then [] else ["Anomalies:\n"] + AnomalyLines(flags, ANOM_COUNT)
  }

  function CausesPart(r: Result): seq<string> { ["Possible causes:\n"] + CauseBullets(r) + ["\n"] }

  function BusPart(r: Result): seq<string> { [BusHead(r)] + BusLines(r) }

  function NextLines(r: Result): seq<string> { ["\n"] + [NextLine(r)] }

  function HeadLines(r: Result): seq<string> { NextLines(r) + ["Phases:\n"] }

  function PhasesPart(r: Result): seq<string> { Collect(PhaseAt(r), BD.PHASE_COUNT) + [PhasesTail(r)] }

  function LinesOf(r: Result): seq<string> {
    OpeningLines(r) + CausesPart(r) + BusPart(r) + AnomalyPart(r.anomalyFlags)
    + (HeadLines(r) + PhasesPart(r))
  }

  // ----- the text is these lines -----

  lemma {:induction false} BulletsText(ps: seq<string>)
    ensures Concat(BulletLines(ps)) == Bullets(ps)
  {
    if ps != [] {
      BulletsText(ps[1..]);
      ConcatTwo([Bullet(ps[0])], BulletLines(ps[1..]));
      ConcatOne(Bullet(ps[0]));
    }
  }

  lemma OpeningText(r: Result)
    ensures Concat(OpeningLines(r)) == Header(r)
  {
    ConcatOne(HeaderLine(r));
    ConcatStep([HeaderLine(r)], "\n");
    assert OpeningLines(r) == [HeaderLine(r)] + ["\n"];
  }

  lemma CausesPartText(r: Result)
    ensures Concat(CausesPart(r)) == CausesSection(r)
  {
    BulletsText(SplitLines(Cut(CausesText(r), CAUSES_LEN - 1)));
    ConcatOne("Possible causes:\n");
    ConcatTwo(["Possible causes:\n"], CauseBullets(r));
    ConcatStep(["Possible causes:\n"] + CauseBullets(r), "\n");
  }

  lemma MaskLinesText(pfx: string, mask: set<nat>, width: nat)
    ensures Concat(MaskLines(pfx, mask, width)) == BitsLine(pfx, mask, width)
  {
    ConcatOne(BitsLine(pfx, mask, width));
  }

  lemma StuckLinesText(r: Result)
    ensures Concat(StuckLines(r)) == StuckBits(r)
  {
    var hi, lo := "Data stuck HIGH:", "Data stuck LOW:";
    var addr := "Addr stuck:";
    MaskLinesText(hi, r.stuckDataHi, 8);
    MaskLinesText(lo, r.stuckDataLo, 8);
    MaskLinesText(addr, r.stuckAddr, 16);
    ConcatTwo(MaskLines(hi, r.stuckDataHi, 8), MaskLines(lo, r.stuckDataLo, 8));
    ConcatTwo(MaskLines(hi, r.stuckDataHi, 8) + MaskLines(lo, r.stuckDataLo, 8), MaskLines(addr, r.stuckAddr, 16));
  }

  lemma FindingLinesText(r: Result)
    ensures Concat(FindingLines(r)) == ReadFindings(r)
  {
    var a := if r.busUndriven then [UndrivenBullet()] else [];
    var b := if !Zero(r.cpFailed, 8) then [FailedBullet(r.cpFailed)] else [];
    ConcatOne(UndrivenBullet());
    ConcatOne(FailedBullet(r.cpFailed));
    ConcatTwo(a, b);
  }

  lemma BusPartText(r: Result)
    ensures Concat(BusPart(r)) == BusSection(r)
  {
    StuckLinesText(r);
    FindingLinesText(r);
    ConcatTwo(StuckLines(r), FindingLines(r));
    ConcatOne("- OK\n");
    ConcatOne(BusHead(r));
    ConcatTwo([BusHead(r)], BusLines(r));
  }

  lemma {:induction false} AnomalyLinesText(flags: set<nat>, n: nat)
    ensures Concat(AnomalyLines(flags, n)) == AnomalyBullets(flags, n)
  {
    if n > 0 {
      AnomalyLinesText(flags, n - 1);
      assert AnomalyLines(flags, n - 1) + [] == AnomalyLines(flags, n - 1);
      ConcatStep(AnomalyLines(flags, n - 1), AnomalyBullet(n - 1));
    }
  }

  lemma AnomalyPartText(flags: set<nat>)
    ensures Concat(AnomalyPart(flags)) == AnomalySection(flags)
  {
    AnomalyLinesText(flags, ANOM_COUNT);
    ConcatOne("Anomalies:\n");
    ConcatTwo(["Anomalies:\n"], AnomalyLines(flags, ANOM_COUNT));
  }

  lemma HeadText(r: Result)
    ensures Concat(HeadLines(r)) == PhasesHead(r)
  {
    ConcatOne("\n");
    ConcatStep(["\n"], NextLine(r));
    ConcatStep(["\n"] + [NextLine(r)], "Phases:\n");
  }

  lemma PhasesText(r: Result)
    ensures Concat(HeadLines(r) + PhasesPart(r))
         == PhasesHead(r) + PhaseBullets(r, BD.PHASE_COUNT) + PhasesTail(r)
  {
    HeadText(r);
    ConcatStep(Collect(PhaseAt(r), BD.PHASE_COUNT), PhasesTail(r));
    ConcatTwo(HeadLines(r), PhasesPart(r));
    Assoc(PhasesHead(r), PhaseBullets(r, BD.PHASE_COUNT), PhasesTail(r));
  }

  lemma JoinFour(a: seq<string>, b: seq<string>, c: seq<string>, d: seq<string>, e: seq<string>)
    ensures Concat(a + b + c + d + e) == Concat(a) + Concat(b) + Concat(c) + Concat(d) + Concat(e)
  {
    ConcatTwo(a, b);
    ConcatTwo(a + b, c);
    ConcatTwo(a + b + c, d);
    ConcatTwo(a + b + c + d, e);
  }

  lemma TextOfLines(r: Result)
    ensures ReportText(r) == Concat(LinesOf(r))
  {
    OpeningText(r);
    CausesPartText(r);
    BusPartText(r);
    AnomalyPartText(r.anomalyFlags);
    PhasesText(r);
    JoinFour(OpeningLines(r), CausesPart(r), BusPart(r), AnomalyPart(r.anomalyFlags),
             HeadLines(r) + PhasesPart(r));
    Rejoin(Header(r) + CausesSection(r) + BusSection(r) + AnomalySection(r.anomalyFlags), PhasesHead(r),
           PhaseBullets(r, BD.PHASE_COUNT), PhasesTail(r));
  }

  lemma Rejoin(a: string, b: string, c: string, d: string)
    ensures a + b + c + d == a + (b + c + d)
  {
    Assoc(a + b, c, d);
    Assoc(a, b, c + d);
    Assoc(b, c, d);
  }

  // ----- it can be taken apart again -----

  predicate AnyLine(l: string) { l == "\n" || OneLine(l) }

  predicate AllAny(ls: seq<string>) { forall l :: l in ls ==> AnyLine(l) }

  lemma SplitAnyFirst(line: string, rest: string)
    requires AnyLine(line)
    ensures SplitLines(line + rest) == [line] + SplitLines(rest)
  {
    if line == "\n" {
      var s := line + rest;
      assert s[0] == '\n' && NewlineAt(s) == 0;
      assert s[..1] == line && s[1..] == rest;
    } else {
      SplitFirst(line, rest);
    }
  }

  lemma {:induction false} SplitAny(ls: seq<string>)
    requires AllAny(ls)
    ensures SplitLines(Concat(ls)) == ls
  {
    if ls != [] {
      SplitAny(ls[1..]);
      ConcatTwo([ls[0]], ls[1..]);
      ConcatOne(ls[0]);
      assert ls == [ls[0]] + ls[1..];
      assert ls[0] in ls;
      SplitAnyFirst(ls[0], Concat(ls[1..]));
    }
  }

  predicate IsBullet(l: string) { OneLine(l) && l[0] == '-' }

  predicate AllBullets(ls: seq<string>) { forall l :: l in ls ==> IsBullet(l) }

  lemma JoinBullets(a: seq<string>, b: seq<string>)
    ensures AllBullets(a) && AllBullets(b) ==> AllBullets(a + b)
  {
  }

  lemma JoinAny(a: seq<string>, b: seq<string>)
    ensures AllAny(a) && AllAny(b) ==> AllAny(a + b)
  {
  }

  lemma OneIsAny(l: string)
    requires AnyLine(l)
    ensures AllAny([l])
  {
  }

  lemma BulletsAreAny(ls: seq<string>)
    ensures AllBullets(ls) ==> AllAny(ls)
  {
  }

  lemma BulletIsLine(x: string)
    requires Plain(x)
    ensures IsBullet("- " + x + "\n")
  {
    EndLine("- " + x);
  }

  lemma {:induction false} BulletsAreBullets(s: string)
    requires '\0' !in s
    ensures AllBullets(BulletLines(SplitLines(s)))
    decreases |s|
  {
    if s == "" {
      assert SplitLines(s) == [];
    } else {
      var i := NewlineAt(s);
      var rest := if i == |s| then "" else s[i + 1..];
      FirstPiece(s, i, rest);
      forall j | 0 <= j < i ensures s[..i][j] != '\0' { assert s[j] in s; }
      BulletIsLine(s[..i]);
      BulletsAreBullets(rest);
      assert BulletLines(SplitLines(s)) == ["- " + s[..i] + "\n"] + BulletLines(SplitLines(rest));
    }
  }

  lemma CauseBulletsAre(r: Result)
    ensures AllBullets(CauseBullets(r))
  {
    LinesAreLines(r);
    LinesHaveNoNul(Lines(r));
    BulletsAreBullets(Cut(CausesText(r), CAUSES_LEN - 1));
  }

  lemma HeaderIsLine(r: Result)
    ensures OneLine(HeaderLine(r))
  {
    DecIsPlain(r.passesRun);
    JoinPlain("Passive boot diagnostic (", Dec(r.passesRun));
    JoinPlain("Passive boot diagnostic (" + Dec(r.passesRun), " pass");
    var es := if r.passesRun == 1 then "" else "es";
    JoinPlain("Passive boot diagnostic (" + Dec(r.passesRun) + " pass", es);
    JoinLine("Passive boot diagnostic (" + Dec(r.passesRun) + " pass" + es, ")\n");
  }

  lemma BusHeadIsLine(r: Result)
    ensures OneLine(BusHead(r))
  {
    DecIsPlain(r.nReads);
    JoinPlain("Bus integrity (", Dec(r.nReads));
    JoinLine("Bus integrity (" + Dec(r.nReads), " reads):\n");
  }

  lemma {:induction false} SpacedArePlain(c: char, mask: set<nat>, n: nat)
    requires Plain([c])
    ensures Plain(SpacedBits(c, mask, n))
  {
    if n > 0 {
      SpacedArePlain(c, mask, n - 1);
      DecIsPlain(n - 1);
    }
  }

  lemma MaskLineIsLine(pfx: string, mask: set<nat>, width: nat)
    requires Plain(pfx) && pfx != ""
    ensures !Zero(mask, width) ==> OneLine(BitsLine(pfx, mask, width))
  {
    SpacedArePlain(Letter(pfx), mask, width);
    JoinPlain(pfx, SpacedBits(Letter(pfx), mask, width));
    EndLine(pfx + SpacedBits(Letter(pfx), mask, width));
  }

  lemma StuckAreLines(r: Result)
    ensures AllAny(StuckLines(r))
  {
    MaskLineIsLine("Data stuck HIGH:", r.stuckDataHi, 8);
    MaskLineIsLine("Data stuck LOW:", r.stuckDataLo, 8);
    MaskLineIsLine("Addr stuck:", r.stuckAddr, 16);
  }

  lemma UndrivenIsBullet()
    ensures IsBullet(UndrivenBullet())
  {
    JoinLine("- bus not driven ", "on reads\n");
  }

  lemma FailedIsBullet(cpFailed: set<nat>)
    ensures IsBullet(FailedBullet(cpFailed))
  {
    JoinPlain("- opcode checkpoint(s) ", "failed: 0x");
    JoinPlain("- opcode checkpoint(s) " + "failed: 0x", Hex2(MaskByte(cpFailed)));
    EndLine("- opcode checkpoint(s) " + "failed: 0x" + Hex2(MaskByte(cpFailed)));
  }

  lemma FindingsAreBullets(r: Result)
    ensures AllBullets(FindingLines(r))
  {
    UndrivenIsBullet();
    FailedIsBullet(r.cpFailed);
  }

  lemma BusPartIsLines(r: Result)
    ensures AllAny(BusPart(r))
  {
    BusHeadIsLine(r);
    StuckAreLines(r);
    FindingsAreBullets(r);
    EndLine("- OK");
    assert "- OK\n" == "- OK" + "\n";
  }

  lemma ClockNameIsPlain(a: nat)
    requires a <= CLK_OUT_OF_RANGE
    ensures Plain(AnomalyName(a))
  {
  }

  lemma OtherNameIsPlain(a: nat)
    requires a > CLK_OUT_OF_RANGE
    ensures Plain(AnomalyName(a))
  {
  }

  lemma AnomalyNameIsPlain(a: nat)
    ensures Plain(AnomalyName(a))
  {
    if a <= CLK_OUT_OF_RANGE { ClockNameIsPlain(a); } else { OtherNameIsPlain(a); }
  }

  lemma {:induction false} AnomaliesAreBullets(flags: set<nat>, n: nat)
    ensures AllBullets(AnomalyLines(flags, n))
  {
    if n > 0 {
      AnomaliesAreBullets(flags, n - 1);
      AnomalyNameIsPlain(n - 1);
      BulletIsLine(AnomalyName(n - 1));
    }
  }

  lemma AnomalyPartIsLines(flags: set<nat>)
    ensures AllAny(AnomalyPart(flags))
  {
    AnomaliesAreBullets(flags, ANOM_COUNT);
    EndLine("Anomalies:");
    assert "Anomalies:\n" == "Anomalies:" + "\n";
  }

  lemma PhaseIsBullet(r: Result, p: nat)
    ensures AllBullets([PhaseBullet(r, p)])
  {
    var st := StatusName(BD.StatusOf(r.phaseFlags, r.firstMissing, p));
    ShortNameIsPlain(p);
    JoinPlain("- ", ShortName(p));
    JoinPlain("- " + ShortName(p), ": ");
    JoinPlain("- " + ShortName(p) + ": ", st);
    EndLine("- " + ShortName(p) + ": " + st);
  }

  lemma {:induction false} CollectBullets(f: nat -> string, n: nat)
    requires forall k: nat :: AllBullets([f(k)])
    ensures AllBullets(Collect(f, n))
  {
    if n > 0 {
      CollectBullets(f, n - 1);
      JoinBullets(Collect(f, n - 1), [f(n - 1)]);
    }
  }

  lemma PhasesAreBullets(r: Result, n: nat)
    ensures AllBullets(Collect(PhaseAt(r), n))
  {
    forall k: nat ensures AllBullets([PhaseAt(r)(k)]) { PhaseIsBullet(r, k); }
    CollectBullets(PhaseAt(r), n);
  }

  lemma TailIsBullet(r: Result)
    ensures IsBullet(PhasesTail(r))
  {
    JoinPlain("- PPI writes: ", YesNo(r.earlyPpiWrites));
    JoinPlain("- PPI writes: " + YesNo(r.earlyPpiWrites), "  work-RAM: ");
    JoinPlain("- PPI writes: " + YesNo(r.earlyPpiWrites) + "  work-RAM: ", YesNo(r.workAreaInit));
    EndLine("- PPI writes: " + YesNo(r.earlyPpiWrites) + "  work-RAM: " + YesNo(r.workAreaInit));
  }

  lemma PhasesPartIsBullets(r: Result)
    ensures AllBullets(PhasesPart(r))
  {
    PhasesAreBullets(r, BD.PHASE_COUNT);
    TailIsBullet(r);
  }

  lemma NextNameIsPlain(p: int)
    ensures Plain(NextName(p))
  {
    LongNameIsPlain(p);
  }

  lemma EarlyLongNameIsPlain(p: int)
    requires p <= 2
    ensures Plain(PhaseName(p))
  {
  }

  lemma MiddleLongNameIsPlain(p: int)
    requires 3 <= p <= 5
    ensures Plain(PhaseName(p))
  {
  }

  lemma VectorsNameIsPlain(p: int)
    requires p == 6
    ensures Plain(PhaseName(p))
  {
  }

  lemma LateLongNameIsPlain(p: int)
    requires p >= 7
    ensures Plain(PhaseName(p))
  {
  }

  lemma LongNameIsPlain(p: int)
    ensures Plain(PhaseName(p))
  {
    if p <= 2 { EarlyLongNameIsPlain(p); } else if p <= 5 { MiddleLongNameIsPlain(p); } else if p == 6 { VectorsNameIsPlain(p); } else { LateLongNameIsPlain(p); }
  }

  lemma NextIsLine(r: Result)
    ensures OneLine(NextLine(r))
  {
    NextNameIsPlain(r.firstMissing);
    JoinPlain("Next missing phase: ", NextName(r.firstMissing));
    EndLine("Next missing phase: " + NextName(r.firstMissing));
  }

  lemma HeadLinesAreLines(r: Result)
    ensures AllAny(HeadLines(r))
  {
    NextIsLine(r);
    EndLine("Phases:");
    assert "Phases:\n" == "Phases:" + "\n";
  }

  lemma CausesHeadIsLine()
    ensures AllAny(["Possible causes:\n"])
  {
    EndLine("Possible causes:");
    assert "Possible causes:\n" == "Possible causes:" + "\n";
  }

  lemma CausesPartIsLines(r: Result)
    ensures AllAny(CausesPart(r))
  {
    CauseBulletsAre(r);
    BulletsAreAny(CauseBullets(r));
    CausesHeadIsLine();
    OneIsAny("\n");
    JoinAny(["Possible causes:\n"], CauseBullets(r));
    JoinAny(["Possible causes:\n"] + CauseBullets(r), ["\n"]);
  }

  lemma OpeningIsLines(r: Result)
    ensures AllAny(OpeningLines(r))
  {
    HeaderIsLine(r);
  }

  lemma LastPartIsLines(r: Result)
    ensures AllAny(HeadLines(r) + PhasesPart(r))
  {
    HeadLinesAreLines(r);
    PhasesPartIsBullets(r);
    BulletsAreAny(PhasesPart(r));
    JoinAny(HeadLines(r), PhasesPart(r));
  }

  lemma FiveParts(a: seq<string>, b: seq<string>, c: seq<string>, d: seq<string>, e: seq<string>)
    ensures AllAny(a) && AllAny(b) && AllAny(c) && AllAny(d) && AllAny(e) ==> AllAny(a + b + c + d + e)
  {
  }

  /** Split at its newlines, the report is its lines. */
  lemma ReportReadsBack(r: Result)
    ensures SplitLines(ReportText(r)) == LinesOf(r)
  {
    TextOfLines(r);
    OpeningIsLines(r);
    CausesPartIsLines(r);
    BusPartIsLines(r);
    AnomalyPartIsLines(r.anomalyFlags);
    LastPartIsLines(r);
    FiveParts(OpeningLines(r), CausesPart(r), BusPart(r), AnomalyPart(r.anomalyFlags), HeadLines(r) + PhasesPart(r));
    SplitLinesOf(ReportText(r), LinesOf(r));
  }

  lemma SplitLinesOf(s: string, ls: seq<string>)
    ensures AllAny(ls) && s == Concat(ls) ==> SplitLines(s) == ls
  {
    if AllAny(ls) { SplitAny(ls); }
  }
}
