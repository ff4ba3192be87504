/** What a reader of the report learns from it: each line of its sections stands there for exactly one fact
  * about the result. */
module ReportReading {
  import opened Words
  import opened TextBuffer
  import opened TextReading
  import opened BootDiag
  import opened Causes
  import CR = CauseReading
  import BD = BootDetect
  import opened Report
  import opened ReportLines
  import opened ReportSections

  /** The lines under a heading of the written report. */
  function Under(r: Result, head: string): seq<string> { Section(SplitLines(ReportText(r)), head) }

  // ----- the cause section -----

  lemma {:induction false} SameBullets(ps: seq<string>, qs: seq<string>)
    requires AllBullets(BulletLines(ps)) && AllBullets(BulletLines(qs))
    ensures Bullets(ps) == Bullets(qs) <==> BulletLines(ps) == BulletLines(qs)
  {
    BulletsText(ps);
    BulletsText(qs);
    BulletsAreAny(BulletLines(ps));
    BulletsAreAny(BulletLines(qs));
    SplitAny(BulletLines(ps));
    SplitAny(BulletLines(qs));
  }

  /** One bullet for each line, in order. */
  predicate Bulleted(bullets: seq<string>, ls: seq<string>) {
    |bullets| == |ls| && forall i :: 0 <= i < |ls| ==> bullets[i] == "- " + ls[i]
  }

  lemma {:induction false} LinesAreBulleted(ls: seq<string>)
    requires AllLines(ls)
    ensures Bulleted(BulletLines(ls), ls)
  {
    if ls != [] {
      assert forall l :: l in ls[1..] ==> l in ls;
      LinesAreBulleted(ls[1..]);
      assert ls[0] in ls;
      assert OneLine(ls[0]);
      assert Bullet(ls[0]) == "- " + ls[0];
      forall i | 0 <= i < |ls| ensures BulletLines(ls)[i] == "- " + ls[i] {
        if i > 0 { assert BulletLines(ls)[i] == BulletLines(ls[1..])[i - 1]; }
      }
    }
  }

  lemma BulletedOnce(a: seq<string>, b: seq<string>, ls: seq<string>)
    requires Bulleted(a, ls) && Bulleted(b, ls)
    ensures a == b
  {
  }

  /** The cause section bullets the full cause list, line by line, iff that list has at most 400 chars. */
  lemma CausesAreShown(r: Result)
    ensures Bulleted(Under(r, CAUSES), SplitLines(CausesText(r))) <==> |CausesText(r)| <= 400
  {
    var s := Cut(CausesText(r), CAUSES_LEN - 1);
    ReportReadsBack(r);
    CausesSectionIs(r);
    CausesReadBack(r);
    LinesAreLines(r);
    LinesHaveNoNul(Lines(r));
    BulletsAreBullets(s);
    BulletsAreBullets(CausesText(r));
    SameBullets(SplitLines(s), Lines(r));
    ReportIsCompleteIff(r);
    LinesAreBulleted(Lines(r));
    if Bulleted(CauseBullets(r), Lines(r)) { BulletedOnce(CauseBullets(r), BulletLines(Lines(r)), Lines(r)); }
  }

  // ----- the names of bits behind a prefix -----

  lemma OneSpaced(c: char, k: nat)
    ensures SpacedBit(c, k) + " " == " " + BitName([c], k)
  {
    Assoc(" ", [c], Dec(k));
    Assoc(" ", [c] + Dec(k), " ");
  }

  lemma Rotate(a: string, x: string, b: string, y: string)
    requires a + " " == " " + b && x + " " == " " + y
    ensures (a + x) + " " == " " + (b + y)
  {
    Assoc(a, x, " ");
    Assoc(a, " ", y);
    Assoc(" ", b, y);
  }

  lemma {:induction false} SpacedAreNames(c: char, mask: set<nat>, n: nat)
    ensures SpacedBits(c, mask, n) + " " == " " + BitNames([c], mask, n)
  {
    if n > 0 {
      SpacedAreNames(c, mask, n - 1);
      OneSpaced(c, n - 1);
      var x := if n - 1 in mask then SpacedBit(c, n - 1) else "";
      var y := if n - 1 in mask then BitName([c], n - 1) else "";
      Rotate(SpacedBits(c, mask, n - 1), x, BitNames([c], mask, n - 1), y);
    }
  }

  /** What stands behind the last name does not matter. */
  lemma SameNames(x: string, c: char, k: nat)
    ensures Names(x + "\n", c, k) <==> Names(x + " ", c, k)
  {
    if j :| 0 <= j < |x + "\n"| && NameAt(x + "\n", j, c, k) { NameMoves(x, "\n", " ", j, c, k); }
    if j :| 0 <= j < |x + " "| && NameAt(x + " ", j, c, k) { NameMoves(x, " ", "\n", j, c, k); }
  }

  lemma NameMoves(x: string, a: string, b: string, j: nat, c: char, k: nat)
    requires |a| == |b| == 1 && !IsDigit(a[0]) && !IsDigit(b[0]) && NameAt(x + a, j, c, k)
    ensures NameAt(x + b, j, c, k)
  {
    var t := Dec(k);
    assert j + 1 + |t| <= |x|;
    assert (x + a)[j + 1..j + 1 + |t|] == x[j + 1..j + 1 + |t|] == (x + b)[j + 1..j + 1 + |t|];
    DecReadsBack(k);
  }

  /** No letter c of the prefix has a digit behind it. */
  predicate NamesNothing(pfx: string, c: char) { forall j :: 0 <= j < |pfx| && pfx[j] == c ==> j + 1 < |pfx| && !IsDigit(pfx[j + 1]) }

  lemma NotInPrefix(pfx: string, w: string, j: nat, c: char, k: nat)
    requires NamesNothing(pfx, c) && NameAt(pfx + w, j, c, k)
    ensures j >= |pfx|
  {
    var s, t := pfx + w, Dec(k);
    DecReadsBack(k);
    assert s[j + 1] == s[j + 1..j + 1 + |t|][0] == t[0];
    assert IsDigit(s[j + 1]);
  }

  lemma NameShifts(pfx: string, w: string, i: nat, c: char, k: nat)
    ensures NameAt(pfx + w, |pfx| + i, c, k) <==> NameAt(w, i, c, k)
  {
    var n := |Dec(k)|;
    if i + 1 + n < |w| { assert (pfx + w)[|pfx| + i + 1..|pfx| + i + 1 + n] == w[i + 1..i + 1 + n]; }
  }

  lemma BehindPrefix(pfx: string, w: string, c: char, k: nat)
    requires NamesNothing(pfx, c)
    ensures Names(pfx + w, c, k) <==> Names(w, c, k)
  {
    if j: nat :| j < |pfx + w| && NameAt(pfx + w, j, c, k) {
      NotInPrefix(pfx, w, j, c, k);
      NameShifts(pfx, w, j - |pfx|, c, k);
    }
    if i: nat :| i < |w| && NameAt(w, i, c, k) {
      NameShifts(pfx, w, i, c, k);
    }
  }

  lemma MaskIsNamed(pfx: string, c: char, mask: set<nat>, width: nat, k: nat)
    requires pfx != "" && Letter(pfx) == c && NamesNothing(pfx + " ", c) && !IsDigit(c) && c != ' ' && !Zero(mask, width)
    ensures Names(BitsLine(pfx, mask, width), c, k) <==> k < width && k in mask
  {
    var bits, names := SpacedBits(c, mask, width), BitNames([c], mask, width);
    SpacedAreNames(c, mask, width);
    SameNames(pfx + bits, c, k);
    Assoc(pfx, bits, " ");
    Assoc(pfx, " ", names);
    assert pfx + bits + " " == (pfx + " ") + names;
    BehindPrefix(pfx + " ", names, c, k);
    assert names + "" == names;
    CR.BitsAreNamed(c, mask, width, "", k);
  }

  // ----- the bus section -----

  const HI := "Data stuck HIGH:"
  const LO := "Data stuck LOW:"
  const ADDR := "Addr stuck:"
  const FAILED := "- opcode checkpoint(s) " + "failed: 0x"

  function HiLine(r: Result): string { BitsLine(HI, r.stuckDataHi, 8) }

  function LoLine(r: Result): string { BitsLine(LO, r.stuckDataLo, 8) }

  function AddrLine(r: Result): string { BitsLine(ADDR, r.stuckAddr, 16) }

  lemma BusLineIs(r: Result, l: string)
    ensures l in BusLines(r) <==>
      || (BusOk(r) && l == "- OK\n")
      || (!Zero(r.stuckDataHi, 8) && l == HiLine(r)) || (!Zero(r.stuckDataLo, 8) && l == LoLine(r))
      || (!Zero(r.stuckAddr, 16) && l == AddrLine(r))
      || (r.busUndriven && l == UndrivenBullet()) || (!Zero(r.cpFailed, 8) && l == FailedBullet(r.cpFailed))
  {
    assert l in StuckLines(r) <==>
      || (!Zero(r.stuckDataHi, 8) && l == HiLine(r)) || (!Zero(r.stuckDataLo, 8) && l == LoLine(r))
      || (!Zero(r.stuckAddr, 16) && l == AddrLine(r));
    assert l in FindingLines(r) <==>
      (r.busUndriven && l == UndrivenBullet()) || (!Zero(r.cpFailed, 8) && l == FailedBullet(r.cpFailed));
  }

  lemma UnderBus(r: Result)
    ensures Under(r, BUS) == BusLines(r)
  {
    ReportReadsBack(r);
    BusSectionIs(r);
  }

  lemma HiLetters(l: string)
    requires HI <= l
    ensures |HI| > 11 && l[0] == 'D' && l[1] == 'a' && l[11] == 'H'
  {
    assert HI[0] == 'D' && HI[1] == 'a' && HI[11] == 'H';
  }

  lemma LoLetters(l: string)
    requires LO <= l
    ensures |LO| > 11 && l[0] == 'D' && l[1] == 'a' && l[11] == 'L'
  {
    assert LO[0] == 'D' && LO[1] == 'a' && LO[11] == 'L';
  }

  lemma HiChars(r: Result)
    ensures !Zero(r.stuckDataHi, 8) ==> HI <= HiLine(r) && HiLine(r)[0] == 'D' && HiLine(r)[11] == 'H'
  {
    HiLetters(HI);
    if !Zero(r.stuckDataHi, 8) {
      MaskLineIs(HI, r.stuckDataHi, 8, 'D');
      HiLetters(HiLine(r));
    }
  }

  lemma LoChars(r: Result)
    ensures !Zero(r.stuckDataLo, 8) ==> LO <= LoLine(r) && LoLine(r)[0] == 'D' && LoLine(r)[11] == 'L'
  {
    LoLetters(LO);
    if !Zero(r.stuckDataLo, 8) {
      MaskLineIs(LO, r.stuckDataLo, 8, 'D');
      LoLetters(LoLine(r));
    }
  }

  lemma AddrChars(r: Result)
    ensures !Zero(r.stuckAddr, 16) ==> ADDR <= AddrLine(r) && AddrLine(r)[0] == 'A'
  {
    assert ADDR[0] == 'A' && ADDR[1] == 'd';
    if !Zero(r.stuckAddr, 16) { MaskLineIs(ADDR, r.stuckAddr, 16, 'A'); }
  }

  lemma OkChars()
    ensures "- OK\n"[0] == '-' && "- OK\n"[2] == 'O'
  {
  }

  lemma UndrivenChars()
    ensures |UndrivenBullet()| > 2 && UndrivenBullet()[0] == '-' && UndrivenBullet()[2] == 'b'
  {
    var a := "- bus not driven ";
    assert a[0] == '-' && a[2] == 'b';
  }

  lemma FailedChars(cpFailed: set<nat>)
    ensures FAILED <= FailedBullet(cpFailed) && FailedBullet(cpFailed)[0] == '-' && FailedBullet(cpFailed)[2] == 'o'
  {
    var a := "- opcode checkpoint(s) ";
    assert a[0] == '-' && a[2] == 'o';
    assert FAILED[0] == '-' && FAILED[2] == 'o';
    Assoc(FAILED, Hex2(MaskByte(cpFailed)), "\n");
  }

  /** "- OK" stands there iff none of the five read findings holds. */
  lemma OkIsShown(r: Result)
    ensures "- OK\n" in Under(r, BUS) <==>
      && (forall k: nat :: k < 8 ==> k !in r.stuckDataHi) && (forall k: nat :: k < 8 ==> k !in r.stuckDataLo)
      && (forall k: nat :: k < 16 ==> k !in r.stuckAddr) && !r.busUndriven && (forall k: nat :: k < 8 ==> k !in r.cpFailed)
  {
    UnderBus(r);
    BusLineIs(r, "- OK\n");
    OkChars();
    HiChars(r);
    LoChars(r);
    AddrChars(r);
    UndrivenChars();
    FailedChars(r.cpFailed);
  }

  /** The line about an undriven bus stands there iff the bus was undriven. */
  lemma UndrivenIsShown(r: Result)
    ensures ("- bus not driven " + "on reads\n") in Under(r, BUS) <==> r.busUndriven
  {
    UnderBus(r);
    BusLineIs(r, UndrivenBullet());
    OkChars();
    HiChars(r);
    LoChars(r);
    AddrChars(r);
    UndrivenChars();
    FailedChars(r.cpFailed);
  }

  /** Some line under the heading begins like this. */
  ghost predicate SomeBegins(r: Result, begin: string) { exists l :: l in Under(r, BUS) && begin <= l }

  /** Every line that does names bit k with the letter c iff the bit is one of the mask. */
  ghost predicate BeginsNaming(r: Result, begin: string, c: char, k: nat, named: bool) {
    forall l :: l in Under(r, BUS) && begin <= l ==> (Names(l, c, k) <==> named)
  }

  lemma HiOnly(r: Result, l: string)
    requires l in Under(r, BUS) && HI <= l
    ensures !Zero(r.stuckDataHi, 8) && l == HiLine(r)
  {
    HiLetters(l);
    UnderBus(r);
    BusLineIs(r, l);
    OkChars();
    LoChars(r);
    AddrChars(r);
    UndrivenChars();
    FailedChars(r.cpFailed);
  }

  lemma LoOnly(r: Result, l: string)
    requires l in Under(r, BUS) && LO <= l
    ensures !Zero(r.stuckDataLo, 8) && l == LoLine(r)
  {
    LoLetters(l);
    UnderBus(r);
    BusLineIs(r, l);
    OkChars();
    HiChars(r);
    AddrChars(r);
    UndrivenChars();
    FailedChars(r.cpFailed);
  }

  lemma AddrOnly(r: Result, l: string)
    requires l in Under(r, BUS) && ADDR <= l
    ensures !Zero(r.stuckAddr, 16) && l == AddrLine(r)
  {
    assert ADDR[0] == 'A';
    UnderBus(r);
    BusLineIs(r, l);
    OkChars();
    HiChars(r);
    LoChars(r);
    UndrivenChars();
    FailedChars(r.cpFailed);
  }

  lemma FailedOnly(r: Result, l: string)
    requires l in Under(r, BUS) && FAILED <= l
    ensures !Zero(r.cpFailed, 8) && l == FailedBullet(r.cpFailed)
  {
    FailedChars(r.cpFailed);
    assert FAILED[0] == '-' && FAILED[2] == 'o';
    UnderBus(r);
    BusLineIs(r, l);
    OkChars();
    HiChars(r);
    LoChars(r);
    AddrChars(r);
    UndrivenChars();
  }

  lemma HiPrefix()
    ensures HI != "" && Letter(HI) == 'D' && NamesNothing(HI + " ", 'D')
  {
    assert HI[0] == 'D' && HI[1] == 'a';
    assert forall j :: 0 < j < |HI| ==> HI[j] != 'D';
  }

  lemma LoPrefix()
    ensures LO != "" && Letter(LO) == 'D' && NamesNothing(LO + " ", 'D')
  {
    assert LO[0] == 'D' && LO[1] == 'a';
    assert forall j :: 0 < j < |LO| ==> LO[j] != 'D';
  }

  lemma AddrPrefix()
    ensures ADDR != "" && Letter(ADDR) == 'A' && NamesNothing(ADDR + " ", 'A')
  {
    assert ADDR[0] == 'A' && ADDR[1] == 'd';
    assert forall j :: 0 < j < |ADDR| ==> ADDR[j] != 'A';
  }

  /** Data bits stuck high: a line says so iff there is one, and names just these. */
  lemma StuckHighIsShown(r: Result, k: nat)
    ensures SomeBegins(r, "Data stuck HIGH:") <==> !Zero(r.stuckDataHi, 8)
    ensures BeginsNaming(r, "Data stuck HIGH:", 'D', k, k < 8 && k in r.stuckDataHi)
  {
    forall l | l in Under(r, BUS) && HI <= l ensures !Zero(r.stuckDataHi, 8) && l == HiLine(r) { HiOnly(r, l); }
    HiPrefix();
    if !Zero(r.stuckDataHi, 8) { MaskIsNamed(HI, 'D', r.stuckDataHi, 8, k); }
    UnderBus(r);
    BusLineIs(r, HiLine(r));
    HiChars(r);
  }

  lemma StuckLowIsShown(r: Result, k: nat)
    ensures SomeBegins(r, "Data stuck LOW:") <==> !Zero(r.stuckDataLo, 8)
    ensures BeginsNaming(r, "Data stuck LOW:", 'D', k, k < 8 && k in r.stuckDataLo)
  {
    forall l | l in Under(r, BUS) && LO <= l ensures !Zero(r.stuckDataLo, 8) && l == LoLine(r) { LoOnly(r, l); }
    LoPrefix();
    if !Zero(r.stuckDataLo, 8) { MaskIsNamed(LO, 'D', r.stuckDataLo, 8, k); }
    UnderBus(r);
    BusLineIs(r, LoLine(r));
    LoChars(r);
  }

  lemma StuckAddressIsShown(r: Result, k: nat)
    ensures SomeBegins(r, "Addr stuck:") <==> !Zero(r.stuckAddr, 16)
    ensures BeginsNaming(r, "Addr stuck:", 'A', k, k < 16 && k in r.stuckAddr)
  {
    forall l | l in Under(r, BUS) && ADDR <= l ensures !Zero(r.stuckAddr, 16) && l == AddrLine(r) { AddrOnly(r, l); }
    AddrPrefix();
    if !Zero(r.stuckAddr, 16) { MaskIsNamed(ADDR, 'A', r.stuckAddr, 16, k); }
    UnderBus(r);
    BusLineIs(r, AddrLine(r));
    AddrChars(r);
  }

  /** Failed checkpoints: a line says so iff there is one, and its two hex digits are the mask. */
  lemma FailedIsShown(r: Result, k: nat)
    ensures SomeBegins(r, FAILED) <==> !Zero(r.cpFailed, 8)
    ensures forall l :: l in Under(r, BUS) && FAILED <= l ==>
      exists hex :: l == FAILED + hex + "\n" && |hex| == 2 && (Bit(ReadHex2(hex), k) <==> k < 8 && k in r.cpFailed)
  {
    HexOfMask(r.cpFailed, k);
    forall l | l in Under(r, BUS) && FAILED <= l ensures !Zero(r.cpFailed, 8) && l == FailedBullet(r.cpFailed) { FailedOnly(r, l); }
    UnderBus(r);
    BusLineIs(r, FailedBullet(r.cpFailed));
    FailedChars(r.cpFailed);
  }

  // ----- the anomaly section -----

  lemma {:induction false} AnomalyLineIs(flags: set<nat>, n: nat, l: string)
    ensures l in AnomalyLines(flags, n) <==> exists a: nat :: a < n && a in flags && l == AnomalyBullet(a)
  {
    if n > 0 { AnomalyLineIs(flags, n - 1, l); }
  }

  lemma UnderAnomalies(r: Result, l: string)
    ensures l in Under(r, ANOMALIES) <==> exists a: nat :: a < ANOM_COUNT && a in r.anomalyFlags && l == AnomalyBullet(a)
  {
    ReportReadsBack(r);
    AnomaliesSectionIs(r);
    AnomalyLineIs(r.anomalyFlags, ANOM_COUNT, l);
  }

  // The third and the sixth letter tell the five lines apart.

  lemma NoClockLetters()
    ensures var l := AnomalyBullet(CLK_ABSENT); |l| > 5 && l[2] == 'n' && l[5] == 'c'
  {
    assert "no clock"[0] == 'n' && "no clock"[3] == 'c';
  }

  lemma OffFreqLetters()
    ensures var l := AnomalyBullet(CLK_OUT_OF_RANGE); |l| > 5 && l[2] == 'c'
  {
    assert "clock off-freq"[0] == 'c';
  }

  lemma ResetHeldLetters()
    ensures var l := AnomalyBullet(RESET_STUCK); |l| > 5 && l[2] == 'r'
  {
    assert "reset held"[0] == 'r';
  }

  lemma NoCyclesLetters()
    ensures var l := AnomalyBullet(NO_BUS_CYCLES); |l| > 5 && l[2] == 'n' && l[5] == 'b'
  {
    assert "no bus cycles"[0] == 'n' && "no bus cycles"[3] == 'b';
  }

  lemma WaitLowLetters()
    ensures var l := AnomalyBullet(WAIT_STUCK_LOW); |l| > 5 && l[2] == '/'
  {
    assert "/WAIT stuck low"[0] == '/';
  }

  lemma DifferentBullets(a: nat, b: nat)
    requires a < ANOM_COUNT && b < ANOM_COUNT && AnomalyBullet(a) == AnomalyBullet(b)
    ensures a == b
  {
    NoClockLetters();
    OffFreqLetters();
    ResetHeldLetters();
    NoCyclesLetters();
    WaitLowLetters();
  }

  lemma AnomalyIsShown(r: Result, a: nat)
    requires a < ANOM_COUNT
    ensures AnomalyBullet(a) in Under(r, ANOMALIES) <==> a in r.anomalyFlags
  {
    UnderAnomalies(r, AnomalyBullet(a));
    forall b: nat | b < ANOM_COUNT && AnomalyBullet(a) == AnomalyBullet(b) ensures a == b { DifferentBullets(a, b); }
  }

  /** The words of the five anomalies, in the order of their bits. */
  const ANOMALY_NAMES := ["no clock", "clock off-freq", "reset held", "no bus cycles", "/WAIT stuck low"]

  lemma AnomalyHasName(a: nat)
    requires a < ANOM_COUNT
    ensures |ANOMALY_NAMES| == ANOM_COUNT && AnomalyName(a) == ANOMALY_NAMES[a]
  {
  }

  /** The line of each anomaly stands there iff its flag is set. */
  lemma AnomaliesAreShown(r: Result, a: nat)
    requires a < ANOM_COUNT
    ensures |ANOMALY_NAMES| == ANOM_COUNT
    ensures ("- " + ANOMALY_NAMES[a] + "\n") in Under(r, ANOMALIES) <==> a in r.anomalyFlags
  {
    AnomalyHasName(a);
    AnomalyIsShown(r, a);
  }

  // ----- the phase section -----

  lemma {:induction false} CollectAt(f: nat -> string, n: nat, k: nat)
    ensures |Collect(f, n)| == n && (k < n ==> Collect(f, n)[k] == f(k))
  {
    if n > 0 { CollectAt(f, n - 1, k); }
  }

  lemma CollectedAt(f: nat -> string, n: nat, last: string, k: nat)
    ensures var s := Collect(f, n) + [last]; |s| == n + 1 && s[n] == last && (k < n ==> s[k] == f(k))
  {
    CollectAt(f, n, k);
  }

  lemma PhasesSection(r: Result)
    ensures Under(r, PHASES) == PhasesPart(r)
  {
    ReportReadsBack(r);
    PhasesSectionIs(r);
  }

  lemma UnderPhases(r: Result, p: nat)
    ensures |Under(r, PHASES)| == BD.PHASE_COUNT + 1 && Under(r, PHASES)[BD.PHASE_COUNT] == PhasesTail(r)
    ensures p < BD.PHASE_COUNT ==> Under(r, PHASES)[p] == PhaseBullet(r, p)
  {
    PhasesSection(r);
    CollectedAt(PhaseAt(r), BD.PHASE_COUNT, PhasesTail(r), p);
  }

  /** What the line of a phase says. */
  ghost predicate Says(l: string, name: string, seen: set<nat>, p: nat) {
    l == "- " + name + ": " + (if p in seen then "OK" else if forall q: nat :: q < p ==> q in seen then "STALLED" else "--") + "\n"
  }

  lemma StatusIsSaid(r: Result, p: nat, l: string)
    requires r.firstMissing == BD.FirstMissing(r.phaseFlags, 0) && p < BD.PHASE_COUNT
    ensures l == PhaseBullet(r, p) ==> Says(l, ShortName(p), r.phaseFlags, p)
  {
    BD.StatusExact(r.phaseFlags, p);
  }

  /** Line p is that of phase p: OK iff it was seen, STALLED iff it is the lowest that was not. */
  lemma PhasesAreShown(r: Result, p: nat)
    requires r.firstMissing == BD.FirstMissing(r.phaseFlags, 0) && p < BD.PHASE_COUNT
    ensures |CR.PHASE_NAMES| == BD.PHASE_COUNT && |Under(r, PHASES)| == BD.PHASE_COUNT + 1
    ensures Says(Under(r, PHASES)[p], CR.PHASE_NAMES[p], r.phaseFlags, p)
  {
    UnderPhases(r, p);
    StatusIsSaid(r, p, PhaseBullet(r, p));
    CR.PhaseHasName(p);
  }

  /** The last line gives the two side flags. */
  lemma SideFlagsAreShown(r: Result)
    ensures |Under(r, PHASES)| == 10
    ensures Under(r, PHASES)[9] == "- PPI writes: " + (if r.earlyPpiWrites then "yes" else "no")
                                   + "  work-RAM: " + (if r.workAreaInit then "yes" else "no") + "\n"
  {
    UnderPhases(r, 0);
  }

  // ----- the lines between the sections -----

  const NEXT := "Next missing phase: "

  lemma {:induction false} BeginsNot(ls: seq<string>, head: string, l: string)
    requires NoneBegins(ls, head) && l in ls
    ensures !(head <= l)
  {
    if l != ls[0] {
      assert l in ls[1..];
      BeginsNot(ls[1..], head, l);
    }
  }

  /** Of all lines just this one begins like that. */
  ghost predicate OnlyLine(ls: seq<string>, head: string, h: string) {
    h in ls && forall l :: l in ls && head <= l ==> l == h
  }

  lemma OnlyOne(ls: seq<string>, a: seq<string>, h: string, rest: seq<string>, head: string)
    ensures NoneBegins(a, head) && NoneBegins(rest, head) && ls == a + [h] + rest ==> OnlyLine(ls, head, h)
  {
    if NoneBegins(a, head) && NoneBegins(rest, head) && ls == a + [h] + rest {
      assert ls[|a|] == h;
      forall l | l in ls && head <= l ensures l == h {
        if l in a { BeginsNot(a, head, l); }
        if l in rest { BeginsNot(rest, head, l); }
      }
    }
  }

  lemma PhasesHeadFar(head: string)
    ensures head != "" && head[0] != 'P' ==> NoneBegins(["Phases:\n"], head)
  {
    assert "Phases:\n"[0] == 'P';
  }

  lemma BeforeNext(r: Result)
    ensures NoneBegins(OpeningLines(r) + CausesPart(r) + BusPart(r) + AnomalyPart(r.anomalyFlags) + ["\n"], NEXT)
  {
    var o, c, b, a := OpeningLines(r), CausesPart(r), BusPart(r), AnomalyPart(r.anomalyFlags);
    assert NEXT[0] == 'N';
    OpeningBegins(r);
    CausesBegin(r);
    BusBegins(r);
    AnomaliesBegin(r.anomalyFlags);
    OpeningFar(o, NEXT);
    CausesFar(c, NEXT);
    BusFar(b, NEXT);
    AnomaliesFar(a, NEXT);
    BlankBegins(NEXT);
    JoinNone(o, c, NEXT);
    JoinNone(o + c, b, NEXT);
    JoinNone(o + c + b, a, NEXT);
    JoinNone(o + c + b + a, ["\n"], NEXT);
  }

  lemma BehindNext(r: Result, head: string)
    requires head != "" && head[0] != 'P' && head[0] != '-'
    ensures NoneBegins(["Phases:\n"] + PhasesPart(r), head)
  {
    PhasesHeadFar(head);
    PhasesBodyBegins(r);
    BulletsFar(PhasesPart(r), head);
    JoinNone(["Phases:\n"], PhasesPart(r), head);
  }

  lemma NextPlace<T>(o: seq<T>, blank: seq<T>, n: seq<T>, h: seq<T>, p: seq<T>)
    ensures o + (blank + n + h + p) == (o + blank) + n + (h + p)
  {
  }

  lemma OnlyNext(r: Result)
    ensures OnlyLine(SplitLines(ReportText(r)), NEXT, NextLine(r))
  {
    var o := OpeningLines(r) + CausesPart(r) + BusPart(r) + AnomalyPart(r.anomalyFlags);
    assert NEXT[0] == 'N';
    ReportReadsBack(r);
    BeforeNext(r);
    BehindNext(r, NEXT);
    NextPlace(o, ["\n"], [NextLine(r)], ["Phases:\n"], PhasesPart(r));
    OnlyOne(LinesOf(r), o + ["\n"], NextLine(r), ["Phases:\n"] + PhasesPart(r), NEXT);
  }

  const LONG_NAMES := ["Reset vector fetch", "BIOS early init", "Slot/RAM probe", "BIOS init complete",
                       "BIOS->BASIC handoff", "BASIC cold start", "BASIC BIOS vectors", "VDP init activity",
                       "Cartridge scan"]

  lemma PhaseHasLongName(p: nat)
    requires p < BD.PHASE_COUNT
    ensures |LONG_NAMES| == BD.PHASE_COUNT && PhaseName(p) == LONG_NAMES[p]
  {
  }

  /** One line names the lowest phase that was not seen, if there is one. */
  lemma NextIsShown(r: Result, p: nat)
    requires r.firstMissing == BD.FirstMissing(r.phaseFlags, 0)
    requires p < BD.PHASE_COUNT && p !in r.phaseFlags && forall q: nat :: q < p ==> q in r.phaseFlags
    ensures |LONG_NAMES| == BD.PHASE_COUNT
    ensures OnlyLine(SplitLines(ReportText(r)), NEXT, NEXT + LONG_NAMES[p] + "\n")
  {
    OnlyNext(r);
    PhaseHasLongName(p);
    assert r.firstMissing == p;
  }

  lemma CompleteIsShown(r: Result)
    requires r.firstMissing == BD.FirstMissing(r.phaseFlags, 0)
    requires forall q: nat :: q < BD.PHASE_COUNT ==> q in r.phaseFlags
    ensures OnlyLine(SplitLines(ReportText(r)), NEXT, NEXT + "complete" + "\n")
  {
    OnlyNext(r);
  }

  lemma BehindBus(r: Result)
    ensures NoneBegins(BusLines(r) + AnomalyPart(r.anomalyFlags) + (HeadLines(r) + PhasesPart(r)), BUS)
  {
    var b, a := BusLines(r), AnomalyPart(r.anomalyFlags);
    assert BUS[0] == 'B';
    BusLinesAreBusLike(r);
    AnomaliesBegin(r.anomalyFlags);
    NextBegins(r);
    BusLinesFar(b, BUS);
    AnomaliesFar(a, BUS);
    NextFar(NextLines(r), BUS);
    BehindNext(r, BUS);
    JoinNone(NextLines(r), ["Phases:\n"] + PhasesPart(r), BUS);
    HeadPlace(NextLines(r), ["Phases:\n"], PhasesPart(r));
    JoinNone(b, a, BUS);
    JoinNone(b + a, HeadLines(r) + PhasesPart(r), BUS);
  }

  lemma HeadPlace<T>(n: seq<T>, h: seq<T>, p: seq<T>)
    ensures n + h + p == n + (h + p)
  {
  }

  lemma BusHeadPlace<T>(o: seq<T>, h: seq<T>, b: seq<T>, a: seq<T>, p: seq<T>)
    ensures o + (h + b) + a + p == o + h + (b + a + p)
  {
  }

  lemma OnlyBusHead(r: Result)
    ensures OnlyLine(SplitLines(ReportText(r)), BUS, BusHead(r))
  {
    var o := OpeningLines(r) + CausesPart(r);
    ReportReadsBack(r);
    FrontBegins(r, BUS);
    BehindBus(r);
    BusHeadPlace(o, [BusHead(r)], BusLines(r), AnomalyPart(r.anomalyFlags), HeadLines(r) + PhasesPart(r));
    OnlyOne(LinesOf(r), o, BusHead(r), BusLines(r) + AnomalyPart(r.anomalyFlags) + (HeadLines(r) + PhasesPart(r)), BUS);
  }

  /** The heading of the bus section gives the number of reads. */
  lemma ReadsAreShown(r: Result)
    ensures exists digits :: AllDigits(digits) && ReadDec(digits) == r.nReads
                             && OnlyLine(SplitLines(ReportText(r)), BUS, BUS + digits + " reads):\n")
  {
    DecReadsBack(r.nReads);
    OnlyBusHead(r);
    assert BusHead(r) == BUS + Dec(r.nReads) + " reads):\n";
  }

  /** The first line gives the number of passes. */
  lemma PassesAreShown(r: Result)
    ensures SplitLines(ReportText(r)) != []
    ensures exists digits :: AllDigits(digits) && ReadDec(digits) == r.passesRun
                             && SplitLines(ReportText(r))[0] == "Passive boot diagnostic (" + digits + " pass"
                                                                + (if r.passesRun == 1 then "" else "es") + ")\n"
  {
    DecReadsBack(r.passesRun);
    ReportReadsBack(r);
    assert LinesOf(r)[0] == OpeningLines(r)[0];
  }
}
