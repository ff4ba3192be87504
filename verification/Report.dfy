/** The text report of a diagnostic round, boot_diag.c, and what its 400-char cause buffer costs. */
module Report {
  import opened Words
  import opened TextBuffer
  import opened Causes
  import BD = BootDetect
  import BI = BusIntegrity
  import opened BootDiag

  const CAUSES_LEN := 400

  // ----- what an unbounded buffer would get -----

  /** "- " and the piece, ended by a newline whether the piece has one or not. */
  function Bullet(piece: string): string {
    "- " + (if |piece| > 0 && piece[|piece| - 1] == '\n' then piece else piece + "\n")
  }

  function Bullets(ls: seq<string>): string {
    if ls == [] then "" else Bullet(ls[0]) + Bullets(ls[1..])
  }

  function HeaderLine(r: Result): string {
    "Passive boot diagnostic (" + Dec(r.passesRun) + " pass" + (if r.passesRun == 1 then "" else "es") + ")\n"
  }

  function Header(r: Result): string { HeaderLine(r) + "\n" }

  /** The causes go through a buffer of CAUSES_LEN chars first. */
  function CausesSection(r: Result): string {
    "Possible causes:\n" + Bullets(SplitLines(Cut(CausesText(r), CAUSES_LEN - 1))) + "\n"
  }

  function Letter(pfx: string): char { if pfx != "" && pfx[0] == 'D' then 'D' else 'A' }

  function SpacedBit(c: char, k: nat): string { " " + [c] + Dec(k) }

  function SpacedBits(c: char, mask: set<nat>, n: nat): string {
    if n == 0 then "" else SpacedBits(c, mask, n - 1) + if n - 1 in mask then SpacedBit(c, n - 1) else ""
  }

  function BitsLine(pfx: string, mask: set<nat>, width: nat): string {
    if Zero(mask, width) then "" else pfx + SpacedBits(Letter(pfx), mask, width) + "\n"
  }

  /** No read-path finding. */
  predicate BusOk(r: Result) {
    Zero(r.stuckDataHi, 8) && Zero(r.stuckDataLo, 8) && Zero(r.stuckAddr, 16) && !r.busUndriven && Zero(r.cpFailed, 8)
  }

  function StuckBits(r: Result): string {
    BitsLine("Data stuck HIGH:", r.stuckDataHi, 8) + BitsLine("Data stuck LOW:", r.stuckDataLo, 8)
    + BitsLine("Addr stuck:", r.stuckAddr, 16)
  }

  function UndrivenBullet(): string { "- bus not driven " + "on reads\n" }

  function FailedBullet(cpFailed: set<nat>): string {
    "- opcode checkpoint(s) " + "failed: 0x" + Hex2(MaskByte(cpFailed)) + "\n"
  }

  function ReadFindings(r: Result): string {
    (if r.busUndriven then UndrivenBullet() else "") + (if !Zero(r.cpFailed, 8) then FailedBullet(r.cpFailed) else "")
  }

  function BusHead(r: Result): string { "Bus integrity (" + Dec(r.nReads) + " reads):\n" }

  function BusSection(r: Result): string {
    BusHead(r) + if BusOk(r) then "- OK\n" else StuckBits(r) + ReadFindings(r)
  }

  function AnomalyName(a: nat): string {
    if a == CLK_ABSENT then "no clock"
    else if a == CLK_OUT_OF_RANGE then "clock off-freq"
    else if a == RESET_STUCK then "reset held"
    else if a == NO_BUS_CYCLES then "no bus cycles"
    else if a == WAIT_STUCK_LOW then "/WAIT stuck low"
    else "?"
  }

  const ANOM_COUNT := 5

  function AnomalyBullet(a: nat): string { "- " + AnomalyName(a) + "\n" }

  function AnomalyBullets(flags: set<nat>, n: nat): string {
    if n == 0 then "" else AnomalyBullets(flags, n - 1) + if n - 1 in flags then AnomalyBullet(n - 1) else ""
  }

  /** The head depends on the whole 16-bit field, the bullets on the bits that have a name. */
  function AnomalySection(flags: set<nat>): string {
    if Zero(flags, 16) then "" else "Anomalies:\n" + AnomalyBullets(flags, ANOM_COUNT)
  }

  function PhaseName(p: int): string {
    match p
    case 0 => "Reset vector fetch"
    case 1 => "BIOS early init"
    case 2 => "Slot/RAM probe"
    case 3 => "BIOS init complete"
    case 4 => "BIOS->BASIC handoff"
    case 5 => "BASIC cold start"
    case 6 => "BASIC BIOS vectors"
    case 7 => "VDP init activity"
    case 8 => "Cartridge scan"
    case _ => "?"
  }

  function NextName(firstMissing: int): string {
    if firstMissing >= BD.PHASE_COUNT then "complete" else PhaseName(firstMissing)
  }

  function StatusName(s: BD.Status): string {
    match s
    case Ok => "OK"
    case Stalled => "STALLED"
    case NotReached => "--"
  }

  function PhaseBullet(r: Result, p: nat): string {
    "- " + ShortName(p) + ": " + StatusName(BD.StatusOf(r.phaseFlags, r.firstMissing, p)) + "\n"
  }

  function PhaseAt(r: Result): nat -> string { (p: nat) => PhaseBullet(r, p) }

  function PhaseBullets(r: Result, n: nat): string { Concat(Collect(PhaseAt(r), n)) }

  function YesNo(b: bool): string { if b then "yes" else "no" }

  function NextLine(r: Result): string { "Next missing phase: " + NextName(r.firstMissing) + "\n" }

  function PhasesHead(r: Result): string { "\n" + NextLine(r) + "Phases:\n" }

  function PhasesTail(r: Result): string {
    "- PPI writes: " + YesNo(r.earlyPpiWrites) + "  work-RAM: " + YesNo(r.workAreaInit) + "\n"
  }

  function ReportText(r: Result): string {
    Header(r) + CausesSection(r) + BusSection(r) + AnomalySection(r.anomalyFlags)
    + PhasesHead(r) + PhaseBullets(r, BD.PHASE_COUNT) + PhasesTail(r)
  }

  // ----- the cause section -----

  /** A C string s in an array: its chars, none of them NUL, then a NUL. */
  ghost predicate CString(a: array<char>, s: string)
    reads a
  {
    |s| < a.Length && a[|s|] == '\0' && '\0' !in s && a[..|s|] == s
  }

  /** `strchr(p, '\n')`, or the terminating NUL. */
  method FindNewline(a: array<char>, p: nat, ghost s: string) returns (e: nat)
    requires CString(a, s) && p <= |s|
    ensures p <= e <= |s| && e == p + NewlineAt(s[p..])
  {
    e := p;
    while a[e] != '\0' && a[e] != '\n'
      invariant p <= e <= |s| && p + NewlineAt(s[p..]) == e + NewlineAt(s[e..])
      decreases |s| - e
    {
      assert e < |s| && a[e] == s[e];
      assert s[e..][0] == s[e] && s[e..][1..] == s[e + 1..];
      e := e + 1;
    }
    if e < |s| {
      assert a[e] == s[e] && s[e] in s;
    }
  }

  /** The text of the next bullet, and where the piece after it starts. */
  method NextPiece(a: array<char>, p: nat, ghost s: string) returns (bullet: string, q: nat)
    requires CString(a, s) && p < |s|
    ensures p < q <= |s| && SplitLines(s[p..]) != []
    ensures bullet == Bullet(SplitLines(s[p..])[0]) && SplitLines(s[p..])[1..] == SplitLines(s[q..])
  {
    var e := FindNewline(a, p, s);
    PieceStep(s, p, e - p);
    assert a[p..e] == s[p..e];
    bullet := "- " + a[p..e] + "\n";
    assert e < |s| ==> a[e] == s[e];
    q := if a[e] == '\n' then e + 1 else e;
  }

  /** The bullets of the cause buffer's pieces, one `appendf` each. */
  method AppendBullets(causes: array<char>, ghost s: string, buf: array<char>, off: nat, ghost soFar: string)
    returns (o: nat)
    requires causes != buf && CString(causes, s) && Holds(buf, off, soFar)
    modifies buf
    ensures Holds(buf, o, soFar + Bullets(SplitLines(s)))
  {
    o := off;
    var p := 0;
    ghost var text, pieces := soFar, SplitLines(s);
    assert s[0..] == s;
    while causes[p] != '\0'
      invariant p <= |s| && CString(causes, s) && Holds(buf, o, text) && pieces == SplitLines(s[p..])
      invariant text + Bullets(pieces) == soFar + Bullets(SplitLines(s))
      decreases |s| - p
    {
      var bullet, q := NextPiece(causes, p, s);
      o := Append(buf, o, text, bullet);
      BulletsStep(text, pieces);
      text := text + bullet;
      pieces := pieces[1..];
      p := q;
    }
    assert text + "" == text;
  }

  lemma BulletsStep(text: string, ls: seq<string>)
    requires ls != []
    ensures text + Bullets(ls) == (text + Bullet(ls[0])) + Bullets(ls[1..])
  {
  }

  lemma BulletOfPiece(piece: string, x: string)
    requires piece == x + "\n" || (piece == x != "" && x[|x| - 1] != '\n')
    ensures Bullet(piece) == "- " + x + "\n"
  {
    Assoc("- ", x, "\n");
  }

  lemma WholePiece(t: string)
    requires t != "" && NewlineAt(t) == |t|
    ensures SplitLines(t) == [t] + SplitLines("")
  {
  }

  lemma SplitOff(t: string, i: nat, piece: string, rest: string)
    requires i == NewlineAt(t) < |t| && piece == t[..i + 1] && rest == t[i + 1..]
    ensures SplitLines(t) == [piece] + SplitLines(rest)
  {
  }

  lemma FirstPiece(t: string, i: nat, rest: string)
    requires t != "" && i == NewlineAt(t) && rest == if i == |t| then "" else t[i + 1..]
    ensures SplitLines(t) != [] && Bullet(SplitLines(t)[0]) == "- " + t[..i] + "\n"
    ensures SplitLines(t)[1..] == SplitLines(rest)
  {
    if i == |t| {
      assert t[..i] == t;
      WholePiece(t);
      BulletOfPiece(t, t);
    } else {
      assert t[..i + 1] == t[..i] + "\n";
      SplitOff(t, i, t[..i + 1], rest);
      BulletOfPiece(t[..i + 1], t[..i]);
    }
  }

  lemma PieceStep(s: string, p: nat, i: nat)
    requires p < |s| && i == NewlineAt(s[p..])
    ensures SplitLines(s[p..]) != [] && Bullet(SplitLines(s[p..])[0]) == "- " + s[p..p + i] + "\n"
    ensures SplitLines(s[p..])[1..] == SplitLines(s[if p + i == |s| then p + i else p + i + 1..])
  {
    assert s[p..][..i] == s[p..p + i];
    FirstPiece(s[p..], i, s[if p + i == |s| then p + i else p + i + 1..]);
  }

  // ----- what the cause buffer costs -----

  lemma FirstPieceLength(t: string, i: nat, rest: string)
    requires t != "" && i == NewlineAt(t) && rest == if i == |t| then "" else t[i + 1..]
    ensures |SplitLines(t)| == 1 + |SplitLines(rest)|
    ensures |Bullets(SplitLines(t))| == i + 3 + |Bullets(SplitLines(rest))|
  {
    FirstPiece(t, i, rest);
    BulletsStep("", SplitLines(t));
  }

  /** Ends in the middle of a line. */
  predicate Open(s: string) { s != "" && s[|s| - 1] != '\n' }

  lemma OpenAtEnd(s: string, i: nat, rest: string)
    requires s != "" && i <= |s| && rest == if i == |s| then "" else s[i + 1..]
    requires (i < |s| ==> s[i] == '\n') && forall j :: 0 <= j < i ==> s[j] != '\n'
    ensures Open(s) <==> i == |s| || Open(rest)
    ensures |rest| == if i == |s| then 0 else |s| - i - 1
  {
    if i < |s| - 1 {
      assert rest[|rest| - 1] == s[|s| - 1];
    } else {
      assert rest == "";
    }
  }

  lemma {:induction false} BulletsLength(s: string)
    ensures |Bullets(SplitLines(s))| == |s| + 2 * |SplitLines(s)| + One(Open(s))
    decreases |s|
  {
    if s == "" {
      assert SplitLines(s) == [];
    } else {
      var i := NewlineAt(s);
      var rest := if i == |s| then "" else s[i + 1..];
      FirstPieceLength(s, i, rest);
      OpenAtEnd(s, i, rest);
      BulletsLength(rest);
    }
  }

  lemma {:induction false} BulletsAppend(ls: seq<string>, x: string)
    ensures Bullets(ls + [x]) == Bullets(ls) + Bullet(x)
  {
    if ls == [] {
      assert [x][1..] == [];
    } else {
      assert (ls + [x])[1..] == ls[1..] + [x];
      BulletsAppend(ls[1..], x);
    }
  }

  /** Losing only the last newline changes no bullet. */
  lemma LastNewlineIsSpare(init: seq<string>, x: string)
    requires AllLines(init) && Plain(x) && x != ""
    ensures Bullets(SplitLines(Concat(init) + x)) == Bullets(init + [x + "\n"])
  {
    SplitOfConcat(init, x);
    BulletsAppend(init, x);
    BulletsAppend(init, x + "\n");
  }

  lemma LastLine(ls: seq<string>, n: nat)
    requires ls != [] && AllLines(ls) && |Concat(ls)| == n + 1
    ensures Bullets(SplitLines(Concat(ls)[..n])) == Bullets(ls)
  {
    var init, last := ls[..|ls| - 1], ls[|ls| - 1];
    assert last in ls;
    assert OneLine(last);
    var x := last[..|last| - 1];
    assert forall l :: l in init ==> l in ls;
    assert last == x + "\n" && ls == init + [last];
    assert Concat(ls)[..n] == Concat(init) + x;
    LastNewlineIsSpare(init, x);
  }

  /** The report bullets every line of the full cause list iff that list has at most 400 chars: a
    * longer one loses part of a finding, or whole findings. */
  lemma ReportIsCompleteIff(r: Result)
    ensures Bullets(SplitLines(Cut(CausesText(r), CAUSES_LEN - 1))) == Bullets(Lines(r))
       <==> |CausesText(r)| <= CAUSES_LEN
  {
    var t := CausesText(r);
    var s := Cut(t, CAUSES_LEN - 1);
    CausesReadBack(r);
    LinesAreLines(r);
    if |t| == CAUSES_LEN {
      LastLine(Lines(r), CAUSES_LEN - 1);
    } else if |t| > CAUSES_LEN {
      BulletsLength(s);
      BulletsLength(t);
      PiecesOfPrefix(t, CAUSES_LEN - 1);
      assert |Bullets(SplitLines(s))| < |Bullets(Lines(r))|;
    }
  }

  // A list that does not fit: every anomaly over the passes, a bus that only read $FF, and ten
  // constant address lines.

  lemma AnomalyLength(a: nat)
    requires a <= WAIT_STUCK_LOW
    ensures |AnomalyLine(a)| == match a case 0 => 42 case 1 => 34 case 2 => 41 case 3 => 45 case _ => 30
  {
  }

  lemma FiveLines(a: string, b: string, c: string, d: string, e: string)
    ensures |Concat([a] + [b] + [c] + [d] + [e])| == |a| + |b| + |c| + |d| + |e|
  {
    ConcatOne(a);
    ConcatStep([a], b);
    ConcatStep([a] + [b], c);
    ConcatStep([a] + [b] + [c], d);
    ConcatStep([a] + [b] + [c] + [d], e);
  }

  lemma AllAnomaliesLength(flags: set<nat>)
    requires forall a: nat :: a < ANOM_COUNT ==> a in flags
    ensures |Concat(AnomalyCauses(flags))| == 192
  {
    AnomalyLength(CLK_ABSENT);
    AnomalyLength(CLK_OUT_OF_RANGE);
    AnomalyLength(RESET_STUCK);
    AnomalyLength(NO_BUS_CYCLES);
    AnomalyLength(WAIT_STUCK_LOW);
    FiveLines(AnomalyLine(CLK_ABSENT), AnomalyLine(CLK_OUT_OF_RANGE), AnomalyLine(RESET_STUCK),
              AnomalyLine(NO_BUS_CYCLES), AnomalyLine(WAIT_STUCK_LOW));
  }

  lemma {:induction false} BitNamesLength(letter: string, mask: set<nat>, low: nat, n: nat)
    requires |letter| == 1 && low <= n && forall k: nat :: low <= k < n ==> k in mask
    ensures |BitNames(letter, mask, n)| >= 3 * (n - low)
    decreases n
  {
    if n > low {
      BitNamesLength(letter, mask, low, n - 1);
      DecIsPlain(n - 1);
    }
  }

  lemma BitCauseLength(letter: string, mask: set<nat>, low: nat, width: nat, hint: string)
    requires |letter| == 1 && low < width && forall k: nat :: low <= k < width ==> k in mask
    ensures |Concat(BitCause(letter, mask, width, hint))| >= 3 * (width - low) + |hint| + 1
  {
    BitNamesLength(letter, mask, low, width);
    assert low in mask;
    ConcatOne(BitNames(letter, mask, width) + (hint + "\n"));
  }

  lemma StuckLength(r: Result)
    requires forall k: nat :: k < 8 ==> k in r.stuckDataHi
    requires forall k: nat :: 6 <= k < 16 ==> k in r.stuckAddr
    ensures |Concat(StuckCauses(r))| >= 61 + 61
  {
    var hi := BitCause("D", r.stuckDataHi, 8, HiHint());
    var lo := BitCause("D", r.stuckDataLo, 8, LoHint());
    var addr := BitCause("A", r.stuckAddr, 16, AddrHint());
    BitCauseLength("D", r.stuckDataHi, 0, 8, HiHint());
    BitCauseLength("A", r.stuckAddr, 6, 16, AddrHint());
    ConcatTwo(hi, lo);
    ConcatTwo(hi + lo, addr);
  }

  lemma ReadCausesLength(r: Result)
    requires r.busUndriven && !Zero(r.cpFailed, 8)
    ensures |Concat(ReadCauses(r))| == 54 + 40
  {
    ConcatOne(UndrivenLine());
    ConcatStep([UndrivenLine()], MismatchLine(r.cpFailed));
  }

  lemma LongListIsCut(r: Result)
    requires forall a: nat :: a < ANOM_COUNT ==> a in r.anomalyFlags
    requires forall k: nat :: k < 8 ==> k in r.stuckDataHi
    requires forall k: nat :: 6 <= k < 16 ==> k in r.stuckAddr
    requires r.busUndriven && !Zero(r.cpFailed, 8)
    ensures Bullets(SplitLines(Cut(CausesText(r), CAUSES_LEN - 1))) != Bullets(Lines(r))
  {
    AllAnomaliesLength(r.anomalyFlags);
    StuckLength(r);
    ReadCausesLength(r);
    ConcatTwo(AnomalyCauses(r.anomalyFlags), StuckCauses(r));
    ConcatTwo(AnomalyCauses(r.anomalyFlags) + StuckCauses(r), ReadCauses(r));
    ReportIsCompleteIff(r);
  }

  // A round can freeze such a result: in its first pass the clock is off-frequency and nothing is
  // read; in the other two there is no clock, and the bus reads $FF at addresses that differ in
  // A0-A5 only; /RESET and /WAIT stay low throughout.

  function FloatingReads(n: nat): seq<BI.Read>
    requires n <= 64
  {
    seq(n, i requires 0 <= i < n => BI.Read(i, 0xFF))
  }

  function FirstPass(): PassEnd { PassEnd(Probe(5000000, true, true), 0) }

  function LaterPass(): PassEnd { PassEnd(Probe(0, true, true), 64) }

  function FloatingTrail(): Trail { Trail(FloatingReads(64), [], [FirstPass(), LaterPass(), LaterPass()]) }

  lemma {:induction false} OwnBit(k: nat)
    ensures Bit(Pow2(k), k)
  {
    if k > 0 { OwnBit(k - 1); }
  }

  lemma {:induction false} AllSameData(rs: seq<BI.Read>, v: Byte)
    requires forall i :: 0 <= i < |rs| ==> rs[i].data == v
    ensures BI.CountData(rs, v) == |rs|
  {
    if rs != [] { AllSameData(rs[..|rs| - 1], v); }
  }

  lemma {:induction false} Pow2Below(k: nat, m: nat)
    requires k <= m
    ensures Pow2(k) <= Pow2(m)
  {
    if k < m { Pow2Below(k, m - 1); }
  }

  /** Just the upper ten address lines never change. */
  lemma FloatingAddresses()
    ensures BI.ConstantBits(FloatingReads(64)) == All(16) - All(6)
  {
    var rs := FloatingReads(64);
    assert Pow2(6) == 64;
    forall k: nat | k < 16
      ensures BI.Constant(rs, k) <==> k >= 6
    {
      if k < 6 {
        OwnBit(k);
        ZeroHasNoBit(k);
        Pow2Below(k, 5);
        assert Bit(rs[0].addr, k) != Bit(rs[Pow2(k)].addr, k);
      } else {
        forall i | 0 <= i < 64 ensures !Bit(rs[i].addr, k) { NoBitFrom(i, k, 6); }
      }
    }
  }

  lemma TenLines()
    ensures |All(16) - All(6)| == 10
  {
    AllSize(16);
    AllSize(6);
    assert All(6) <= All(16);
  }

  lemma FloatingData(k: nat)
    requires k < 8
    ensures k in ResultOf(FloatingTrail()).stuckDataHi
  {
    var rs := FloatingReads(64);
    forall i | 0 <= i < 64 ensures Bit(rs[i].data, k) { BI.BitsOfZeroAndFF(k); }
    FrozenReadVerdicts(FloatingTrail(), k);
  }

  lemma FloatingUndriven()
    ensures ResultOf(FloatingTrail()).busUndriven
  {
    FrozenReadVerdicts(FloatingTrail(), 0);
    AllSameData(FloatingReads(64), 0xFF);
  }

  lemma ConstantLineIsStuck(tr: Trail, k: nat)
    requires |tr.rs| == 64 && |BI.ConstantBits(tr.rs)| == 10 && k in BI.ConstantBits(tr.rs)
    ensures k in ResultOf(tr).stuckAddr
  {
    FrozenReadVerdicts(tr, k);
  }

  lemma UpperTenAreStuck(tr: Trail, k: nat)
    requires |tr.rs| == 64 && BI.ConstantBits(tr.rs) == All(16) - All(6) && 6 <= k < 16
    ensures k in ResultOf(tr).stuckAddr
  {
    TenLines();
    assert k in All(16) && k !in All(6);
    ConstantLineIsStuck(tr, k);
  }

  lemma FloatingCheckpoint()
    ensures !Zero(ResultOf(FloatingTrail()).cpFailed, 8)
  {
    var rs := FloatingReads(64);
    FrozenReadVerdicts(FloatingTrail(), 0);
    assert rs[0] == BI.Read(0, 0xFF);
    assert BI.SomeMismatch(rs, 0);
    assert 0 in ResultOf(FloatingTrail()).cpFailed;
  }

  lemma FloatingAnomalies(a: nat)
    requires a < ANOM_COUNT
    ensures a in ResultOf(FloatingTrail()).anomalyFlags
  {
    var ends := FloatingTrail().ends;
    FrozenPhasesAndAnomalies(FloatingTrail(), a);
    assert if a == CLK_ABSENT then Shows(ends[1], a) else Shows(ends[0], a);
  }

  /** The report of that round does not show every finding. */
  lemma ARoundCanOverflow()
    ensures var r := ResultOf(FloatingTrail());
            Bullets(SplitLines(Cut(CausesText(r), CAUSES_LEN - 1))) != Bullets(Lines(r))
  {
    forall a: nat | a < ANOM_COUNT ensures a in ResultOf(FloatingTrail()).anomalyFlags { FloatingAnomalies(a); }
    forall k: nat | k < 8 ensures k in ResultOf(FloatingTrail()).stuckDataHi { FloatingData(k); }
    FloatingAddresses();
    forall k: nat | 6 <= k < 16 ensures k in ResultOf(FloatingTrail()).stuckAddr { UpperTenAreStuck(FloatingTrail(), k); }
    FloatingUndriven();
    FloatingCheckpoint();
    LongListIsCut(ResultOf(FloatingTrail()));
  }

  // ----- writing the report -----

  lemma SpacedBitsNext(soFar: string, c: char, mask: set<nat>, k: nat, name: string)
    requires name == SpacedBit(c, k)
    ensures soFar + SpacedBits(c, mask, k + 1)
         == if k in mask then soFar + SpacedBits(c, mask, k) + name else soFar + SpacedBits(c, mask, k)
  {
    Assoc(soFar, SpacedBits(c, mask, k), name);
  }

  method AppendSpacedBit(buf: array<char>, off: nat, ghost soFar: string, c: char, mask: set<nat>, k: nat)
    returns (o: nat)
    requires Holds(buf, off, soFar + SpacedBits(c, mask, k))
    modifies buf
    ensures Holds(buf, o, soFar + SpacedBits(c, mask, k + 1))
  {
    var name := SpacedBit(c, k);
    SpacedBitsNext(soFar, c, mask, k, name);
    o := off;
    if k in mask { o := Append(buf, off, soFar + SpacedBits(c, mask, k), name); }
  }

  method AppendSpacedBits(buf: array<char>, off: nat, ghost soFar: string, c: char, mask: set<nat>, n: nat)
    returns (o: nat)
    requires Holds(buf, off, soFar)
    modifies buf
    ensures Holds(buf, o, soFar + SpacedBits(c, mask, n))
  {
    o := off;
    assert soFar + "" == soFar;
    for i := 0 to n
      invariant Holds(buf, o, soFar + SpacedBits(c, mask, i))
    {
      o := AppendSpacedBit(buf, o, soFar, c, mask, i);
    }
  }

  method AppendBits(buf: array<char>, off: nat, ghost soFar: string, pfx: string, mask: set<nat>, width: nat)
    returns (o: nat)
    requires Holds(buf, off, soFar)
    modifies buf
    ensures Holds(buf, o, soFar + BitsLine(pfx, mask, width))
  {
    assert soFar + "" == soFar;
    if Zero(mask, width) { return off; }
    o := Append(buf, off, soFar, pfx);
    o := AppendSpacedBits(buf, o, soFar + pfx, Letter(pfx), mask, width);
    ghost var bits := SpacedBits(Letter(pfx), mask, width);
    o := Append(buf, o, soFar + pfx + bits, "\n");
    Assoc(soFar, pfx, bits);
    Assoc(soFar, pfx + bits, "\n");
  }

  method AppendIf(buf: array<char>, off: nat, ghost soFar: string, wanted: bool, s: string) returns (o: nat)
    requires Holds(buf, off, soFar)
    modifies buf
    ensures Holds(buf, o, soFar + if wanted then s else "")
  {
    assert soFar + "" == soFar;
    o := off;
    if wanted { o := Append(buf, off, soFar, s); }
  }

  method AppendThreeMasks(buf: array<char>, off: nat, ghost soFar: string, r: Result, hi: string, lo: string, addr: string)
    returns (o: nat)
    requires Holds(buf, off, soFar)
    modifies buf
    ensures Holds(buf, o, soFar + (BitsLine(hi, r.stuckDataHi, 8) + BitsLine(lo, r.stuckDataLo, 8)
                                   + BitsLine(addr, r.stuckAddr, 16)))
  {
    ghost var t1, t2 := BitsLine(hi, r.stuckDataHi, 8), BitsLine(lo, r.stuckDataLo, 8);
    o := AppendBits(buf, off, soFar, hi, r.stuckDataHi, 8);
    o := AppendBits(buf, o, soFar + t1, lo, r.stuckDataLo, 8);
    o := AppendBits(buf, o, soFar + t1 + t2, addr, r.stuckAddr, 16);
    Assoc(soFar, t1, t2);
    Assoc(soFar, t1 + t2, BitsLine(addr, r.stuckAddr, 16));
  }

  method AppendStuckBits(buf: array<char>, off: nat, ghost soFar: string, r: Result) returns (o: nat)
    requires Holds(buf, off, soFar)
    modifies buf
    ensures Holds(buf, o, soFar + StuckBits(r))
  {
    o := AppendThreeMasks(buf, off, soFar, r, "Data stuck HIGH:", "Data stuck LOW:", "Addr stuck:");
  }

  method AppendReadFindings(buf: array<char>, off: nat, ghost soFar: string, r: Result) returns (o: nat)
    requires Holds(buf, off, soFar)
    modifies buf
    ensures Holds(buf, o, soFar + ReadFindings(r))
  {
    var undriven, failed := UndrivenBullet(), FailedBullet(r.cpFailed);
    ghost var t1 := if r.busUndriven then undriven else "";
    ghost var t2 := if !Zero(r.cpFailed, 8) then failed else "";
    o := AppendIf(buf, off, soFar, r.busUndriven, undriven);
    o := AppendIf(buf, o, soFar + t1, !Zero(r.cpFailed, 8), failed);
    Assoc(soFar, t1, t2);
  }

  method AppendBusSection(buf: array<char>, off: nat, ghost soFar: string, r: Result) returns (o: nat)
    requires Holds(buf, off, soFar)
    modifies buf
    ensures Holds(buf, o, soFar + BusSection(r))
  {
    var head := BusHead(r);
    o := Append(buf, off, soFar, head);
    if BusOk(r) {
      o := Append(buf, o, soFar + head, "- OK\n");
      Assoc(soFar, head, "- OK\n");
    } else {
      o := AppendStuckBits(buf, o, soFar + head, r);
      o := AppendReadFindings(buf, o, soFar + head + StuckBits(r), r);
      Assoc(soFar + head, StuckBits(r), ReadFindings(r));
      Assoc(soFar, head, StuckBits(r) + ReadFindings(r));
    }
  }

  lemma AnomalyBulletsNext(soFar: string, flags: set<nat>, a: nat, line: string)
    requires line == AnomalyBullet(a)
    ensures soFar + AnomalyBullets(flags, a + 1)
         == if a in flags then soFar + AnomalyBullets(flags, a) + line else soFar + AnomalyBullets(flags, a)
  {
    Assoc(soFar, AnomalyBullets(flags, a), line);
  }

  method AppendAnomalyBullet(buf: array<char>, off: nat, ghost soFar: string, flags: set<nat>, a: nat) returns (o: nat)
    requires Holds(buf, off, soFar + AnomalyBullets(flags, a))
    modifies buf
    ensures Holds(buf, o, soFar + AnomalyBullets(flags, a + 1))
  {
    var line := AnomalyBullet(a);
    AnomalyBulletsNext(soFar, flags, a, line);
    o := off;
    if a in flags { o := Append(buf, off, soFar + AnomalyBullets(flags, a), line); }
  }

  method AppendAnomalyBullets(buf: array<char>, off: nat, ghost soFar: string, flags: set<nat>, n: nat) returns (o: nat)
    requires Holds(buf, off, soFar)
    modifies buf
    ensures Holds(buf, o, soFar + AnomalyBullets(flags, n))
  {
    o := off;
    assert soFar + "" == soFar;
    for a := 0 to n
      invariant Holds(buf, o, soFar + AnomalyBullets(flags, a))
    {
      o := AppendAnomalyBullet(buf, o, soFar, flags, a);
    }
  }

  method AppendAnomalies(buf: array<char>, off: nat, ghost soFar: string, flags: set<nat>) returns (o: nat)
    requires Holds(buf, off, soFar)
    modifies buf
    ensures Holds(buf, o, soFar + AnomalySection(flags))
  {
    assert soFar + "" == soFar;
    if Zero(flags, 16) { return off; }
    var head := "Anomalies:\n";
    o := Append(buf, off, soFar, head);
    o := AppendAnomalyBullets(buf, o, soFar + head, flags, ANOM_COUNT);
    Assoc(soFar, head, AnomalyBullets(flags, ANOM_COUNT));
  }

  lemma PhaseBulletsNext(soFar: string, r: Result, p: nat, line: string)
    requires line == PhaseBullet(r, p)
    ensures soFar + PhaseBullets(r, p + 1) == soFar + PhaseBullets(r, p) + line
  {
    CollectStep(PhaseAt(r), p);
    Assoc(soFar, PhaseBullets(r, p), line);
  }

  method AppendPhases(buf: array<char>, off: nat, ghost soFar: string, r: Result, n: nat) returns (o: nat)
    requires Holds(buf, off, soFar)
    modifies buf
    ensures Holds(buf, o, soFar + PhaseBullets(r, n))
  {
    o := off;
    assert soFar + "" == soFar;
    for i := 0 to n
      invariant Holds(buf, o, soFar + PhaseBullets(r, i))
    {
      var line := PhaseBullet(r, i);
      o := Append(buf, o, soFar + PhaseBullets(r, i), line);
      PhaseBulletsNext(soFar, r, i, line);
    }
  }

  method CauseBuffer(r: Result) returns (causes: array<char>)
    ensures fresh(causes) && CString(causes, Cut(CausesText(r), CAUSES_LEN - 1))
  {
    causes := new char[CAUSES_LEN];
    var n := PossibleCauses(r, causes);
    LinesAreLines(r);
    LinesHaveNoNul(Lines(r));
  }

  method AppendCauses(buf: array<char>, off: nat, ghost soFar: string, r: Result) returns (o: nat)
    requires Holds(buf, off, soFar)
    modifies buf
    ensures Holds(buf, o, soFar + CausesSection(r))
  {
    var head, end := "Possible causes:\n", "\n";
    o := Append(buf, off, soFar, head);
    var causes := CauseBuffer(r);
    ghost var s := Cut(CausesText(r), CAUSES_LEN - 1);
    o := AppendBullets(causes, s, buf, o, soFar + head);
    ghost var bullets := Bullets(SplitLines(s));
    o := Append(buf, o, soFar + head + bullets, end);
    Assoc(soFar, head, bullets);
    Assoc(soFar, head + bullets, end);
  }

  /** `boot_diag_format_report`: for every result and every non-empty buffer, what is written is the
    * report an unbounded buffer would get, cut to fit and NUL-terminated. */
  method FormatReport(r: Result, buf: array<char>) returns (o: nat)
    requires buf.Length > 0
    modifies buf
    ensures Holds(buf, o, ReportText(r))
  {
    ghost var t := Header(r);
    o := Append(buf, 0, "", Header(r));
    assert "" + t == t;
    o := AppendCauses(buf, o, t, r);
    t := t + CausesSection(r);
    o := AppendBusSection(buf, o, t, r);
    t := t + BusSection(r);
    o := AppendAnomalies(buf, o, t, r.anomalyFlags);
    t := t + AnomalySection(r.anomalyFlags);
    o := Append(buf, o, t, PhasesHead(r));
    t := t + PhasesHead(r);
    o := AppendPhases(buf, o, t, r, BD.PHASE_COUNT);
    t := t + PhaseBullets(r, BD.PHASE_COUNT);
    o := Append(buf, o, t, PhasesTail(r));
  }
}
