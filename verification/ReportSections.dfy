/** The sections of the report: what stands under each of its four headings, and nothing else does. */
module ReportSections {
  import opened TextBuffer
  import opened TextReading
  import opened BootDiag
  import opened Report
  import opened ReportLines
  import BD = BootDetect

  // How the four headings begin.
  const CAUSES := "Possible causes:"
  const BUS := "Bus integrity ("
  const ANOMALIES := "Anomalies:"
  const PHASES := "Phases:"

  // ----- reading a section -----

  /** A blank line ends a section, and so does a line that is no bullet and ends in a colon. */
  predicate Heading(l: string) { l == "\n" || (l != "" && l[0] != '-' && EndsIn(l, ":\n")) }

  function Body(ls: seq<string>): seq<string> { if ls == [] || Heading(ls[0]) then [] else [ls[0]] + Body(ls[1..]) }

  /** The lines under the first heading that begins like this. */
  function Section(ls: seq<string>, head: string): seq<string> {
    if ls == [] then [] else if head <= ls[0] then Body(ls[1..]) else Section(ls[1..], head)
  }

  predicate NoneBegins(ls: seq<string>, head: string) {
    ls == [] || (!(head <= ls[0]) && NoneBegins(ls[1..], head))
  }

  predicate NoHeading(ls: seq<string>) { forall l :: l in ls ==> !Heading(l) }

  predicate Stops(ls: seq<string>) { ls == [] || Heading(ls[0]) }

  lemma {:induction false} BodyStops(body: seq<string>, rest: seq<string>)
    requires NoHeading(body) && Stops(rest)
    ensures Body(body + rest) == body
  {
    if body == [] {
      assert body + rest == rest;
    } else {
      BodyStops(body[1..], rest);
      assert body[0] in body && (body + rest)[1..] == body[1..] + rest;
    }
  }

  lemma {:induction false} SectionSkips(a: seq<string>, rest: seq<string>, head: string)
    requires NoneBegins(a, head)
    ensures Section(a + rest, head) == Section(rest, head)
  {
    if a == [] {
      assert a + rest == rest;
    } else {
      SectionSkips(a[1..], rest, head);
      assert (a + rest)[1..] == a[1..] + rest;
    }
  }

  lemma SectionHere(ls: seq<string>, a: seq<string>, h: string, body: seq<string>, rest: seq<string>, head: string)
    ensures NoneBegins(a, head) && head <= h && NoHeading(body) && Stops(rest) && ls == a + ([h] + (body + rest))
        ==> Section(ls, head) == body
  {
    if NoneBegins(a, head) && head <= h && NoHeading(body) && Stops(rest) {
      SectionSkips(a, [h] + (body + rest), head);
      BodyStops(body, rest);
      assert ([h] + (body + rest))[1..] == body + rest;
    }
  }

  lemma SectionNowhere(ls: seq<string>, head: string)
    ensures NoneBegins(ls, head) ==> Section(ls, head) == []
  {
    if NoneBegins(ls, head) { SectionSkips(ls, [], head); }
    assert ls + [] == ls;
  }

  lemma {:induction false} JoinNone(a: seq<string>, b: seq<string>, head: string)
    ensures NoneBegins(a, head) && NoneBegins(b, head) ==> NoneBegins(a + b, head)
  {
    if a == [] {
      assert a + b == b;
    } else {
      JoinNone(a[1..], b, head);
      assert (a + b)[1..] == a[1..] + b;
    }
  }

  // ----- how lines begin -----

  predicate FirstIn(ls: seq<string>, cs: set<char>) { forall l :: l in ls ==> l != "" && l[0] in cs }

  lemma {:induction false} Unlike(ls: seq<string>, cs: set<char>, head: string)
    ensures FirstIn(ls, cs) && head != "" && head[0] !in cs ==> NoneBegins(ls, head)
  {
    if ls != [] {
      assert forall l :: l in ls[1..] ==> l in ls;
      Unlike(ls[1..], cs, head);
      assert ls[0] in ls;
    }
  }

  // A heading that begins with none of these letters is not among the lines.

  lemma OpeningFar(ls: seq<string>, head: string)
    ensures FirstIn(ls, {'P', '\n'}) && head != "" && head[0] !in {'P', '\n'} ==> NoneBegins(ls, head)
  {
    Unlike(ls, {'P', '\n'}, head);
  }

  lemma CausesFar(ls: seq<string>, head: string)
    ensures FirstIn(ls, {'P', '-', '\n'}) && head != "" && head[0] !in {'P', '-', '\n'} ==> NoneBegins(ls, head)
  {
    Unlike(ls, {'P', '-', '\n'}, head);
  }

  lemma BusFar(ls: seq<string>, head: string)
    ensures FirstIn(ls, {'-', 'D', 'A', 'B'}) && head != "" && head[0] !in {'-', 'D', 'A', 'B'} ==> NoneBegins(ls, head)
  {
    Unlike(ls, {'-', 'D', 'A', 'B'}, head);
  }

  lemma BusLinesFar(ls: seq<string>, head: string)
    ensures FirstIn(ls, {'-', 'D', 'A'}) && head != "" && head[0] !in {'-', 'D', 'A'} ==> NoneBegins(ls, head)
  {
    Unlike(ls, {'-', 'D', 'A'}, head);
  }

  lemma AnomaliesFar(ls: seq<string>, head: string)
    ensures FirstIn(ls, {'A', '-'}) && head != "" && head[0] !in {'A', '-'} ==> NoneBegins(ls, head)
  {
    Unlike(ls, {'A', '-'}, head);
  }

  lemma NextFar(ls: seq<string>, head: string)
    ensures FirstIn(ls, {'\n', 'N'}) && head != "" && head[0] !in {'\n', 'N'} ==> NoneBegins(ls, head)
  {
    Unlike(ls, {'\n', 'N'}, head);
  }

  lemma BulletsFar(ls: seq<string>, head: string)
    ensures FirstIn(ls, {'-'}) && head != "" && head[0] !in {'-'} ==> NoneBegins(ls, head)
  {
    Unlike(ls, {'-'}, head);
  }

  lemma JoinFirst(a: seq<string>, b: seq<string>, cs: set<char>)
    ensures FirstIn(a, cs) && FirstIn(b, cs) ==> FirstIn(a + b, cs)
  {
  }

  lemma OneFirst(l: string, cs: set<char>)
    requires l != "" && l[0] in cs
    ensures FirstIn([l], cs)
  {
  }

  lemma OneNone(l: string, head: string)
    requires !(head <= l)
    ensures NoneBegins([l], head)
  {
  }

  lemma Differs(l: string, head: string, i: nat)
    requires i < |l| && i < |head| && l[i] != head[i]
    ensures !(head <= l)
  {
  }

  lemma BulletsBegin(ls: seq<string>)
    requires AllBullets(ls)
    ensures FirstIn(ls, {'-'}) && NoHeading(ls)
  {
    forall l | l in ls ensures l != "" && l[0] == '-' && !Heading(l) {
      assert IsBullet(l);
      assert "\n"[0] == '\n';
    }
  }

  lemma HeaderBegins(r: Result)
    ensures |HeaderLine(r)| > 2 && HeaderLine(r)[0] == 'P' && HeaderLine(r)[1] == 'a'
  {
    var a := "Passive boot diagnostic (";
    assert a[0] == 'P' && a[1] == 'a';
    assert |a| > 2;
    Assoc(a, Dec(r.passesRun), " pass");
    Begins3(a, Dec(r.passesRun), " pass", if r.passesRun == 1 then "" else "es", ")\n");
  }

  lemma Begins3(a: string, b: string, c: string, d: string, e: string)
    ensures |a + b + c + d + e| >= |a| && forall i :: 0 <= i < |a| ==> (a + b + c + d + e)[i] == a[i]
  {
  }

  lemma OpeningBegins(r: Result)
    ensures FirstIn(OpeningLines(r), {'P', '\n'})
    ensures NoneBegins(OpeningLines(r), CAUSES) && NoneBegins(OpeningLines(r), PHASES)
  {
    HeaderBegins(r);
    assert "\n"[0] == '\n';
    assert CAUSES[1] == 'o' && PHASES[1] == 'h' && CAUSES[0] == 'P' && PHASES[0] == 'P';
    Differs(HeaderLine(r), CAUSES, 1);
    Differs(HeaderLine(r), PHASES, 1);
    Differs("\n", CAUSES, 0);
    Differs("\n", PHASES, 0);
  }

  lemma BlankBegins(head: string)
    ensures FirstIn(["\n"], {'P', '-', '\n'})
    ensures head != "" && head[0] != '\n' ==> NoneBegins(["\n"], head)
  {
    assert "\n"[0] == '\n';
  }

  lemma CausesHeadBegins()
    ensures FirstIn(["Possible causes:\n"], {'P', '-', '\n'}) && NoneBegins(["Possible causes:\n"], PHASES)
  {
    var l, head := "Possible causes:\n", PHASES;
    assert l[0] == 'P' && l[1] == 'o' && head[1] == 'h';
    OneFirst(l, {'P', '-', '\n'});
    Differs(l, head, 1);
    OneNone(l, head);
  }

  lemma CauseBulletsBegin(r: Result)
    ensures FirstIn(CauseBullets(r), {'P', '-', '\n'}) && NoneBegins(CauseBullets(r), PHASES)
    ensures NoHeading(CauseBullets(r))
  {
    CauseBulletsAre(r);
    BulletsBegin(CauseBullets(r));
    assert PHASES[0] == 'P';
    BulletsFar(CauseBullets(r), PHASES);
  }

  lemma CausesBegin(r: Result)
    ensures FirstIn(CausesPart(r), {'P', '-', '\n'}) && NoneBegins(CausesPart(r), PHASES)
  {
    var head, cs := ["Possible causes:\n"], {'P', '-', '\n'};
    CausesHeadBegins();
    CauseBulletsBegin(r);
    assert PHASES[0] == 'P';
    BlankBegins(PHASES);
    JoinFirst(head, CauseBullets(r), cs);
    JoinFirst(head + CauseBullets(r), ["\n"], cs);
    JoinNone(head, CauseBullets(r), PHASES);
    JoinNone(head + CauseBullets(r), ["\n"], PHASES);
  }

  lemma BusHeadIs(r: Result)
    ensures Heading(BusHead(r)) && BUS <= BusHead(r) && BusHead(r)[0] == 'B'
  {
    var a, b := BUS + Dec(r.nReads), " reads):\n";
    assert " reads):\n" == " reads)" + ":\n";
    assert (a + b)[|a + b| - 2..] == ":\n";
    assert BusHead(r)[..|BUS|] == BUS;
    assert BUS[0] == 'B';
  }

  // ----- lines of bits -----

  lemma {:induction false} SpacedEnds(c: char, mask: set<nat>, n: nat)
    ensures !Zero(mask, n) ==> SpacedBits(c, mask, n) != ""
    ensures SpacedBits(c, mask, n) != "" ==> IsDigit(SpacedBits(c, mask, n)[|SpacedBits(c, mask, n)| - 1])
  {
    if n > 0 {
      SpacedEnds(c, mask, n - 1);
      DecReadsBack(n - 1);
      assert SpacedBits(c, mask, n - 1) + "" == SpacedBits(c, mask, n - 1);
    }
  }

  lemma MaskLineIs(pfx: string, mask: set<nat>, width: nat, c: char)
    requires |pfx| > 1 && pfx[0] == c && pfx[0] != '-' && !Zero(mask, width)
    ensures var l := BitsLine(pfx, mask, width); l != "" && l[0] == c && l[1] == pfx[1] && pfx <= l && !Heading(l)
  {
    SpacedEnds(Letter(pfx), mask, width);
    var bits := SpacedBits(Letter(pfx), mask, width);
    var l := BitsLine(pfx, mask, width);
    assert l == pfx + bits + "\n";
    assert l[|l| - 2] == bits[|bits| - 1];
    assert l[|l| - 2..][0] == l[|l| - 2] && ":\n"[0] == ':';
    assert l != "\n";
  }

  lemma MaskLinesBegin(pfx: string, mask: set<nat>, width: nat, c: char)
    requires |pfx| > 1 && pfx[0] == c && pfx[0] != '-'
    ensures FirstIn(MaskLines(pfx, mask, width), {c}) && NoHeading(MaskLines(pfx, mask, width))
    ensures c != 'A' || pfx[1] != 'n' ==> NoneBegins(MaskLines(pfx, mask, width), ANOMALIES)
  {
    assert ANOMALIES[0] == 'A' && ANOMALIES[1] == 'n';
    if !Zero(mask, width) { MaskLineIs(pfx, mask, width, c); }
  }

  lemma WidenFirst(ls: seq<string>, cs: set<char>, ds: set<char>)
    ensures FirstIn(ls, cs) && cs <= ds ==> FirstIn(ls, ds)
  {
  }

  lemma JoinBodies(a: seq<string>, b: seq<string>)
    ensures NoHeading(a) && NoHeading(b) ==> NoHeading(a + b)
  {
  }

  /** Lines of the bus section. */
  ghost predicate BusLike(ls: seq<string>) {
    FirstIn(ls, {'-', 'D', 'A'}) && NoHeading(ls) && NoneBegins(ls, ANOMALIES)
  }

  lemma JoinBusLike(a: seq<string>, b: seq<string>)
    ensures BusLike(a) && BusLike(b) ==> BusLike(a + b)
  {
    JoinNone(a, b, ANOMALIES);
  }

  lemma MaskLinesAreBusLike(pfx: string, mask: set<nat>, width: nat)
    requires |pfx| > 1 && pfx[0] in {'D', 'A'} && pfx[1] != 'n'
    ensures BusLike(MaskLines(pfx, mask, width))
  {
    MaskLinesBegin(pfx, mask, width, pfx[0]);
    WidenFirst(MaskLines(pfx, mask, width), {pfx[0]}, {'-', 'D', 'A'});
  }

  lemma BulletsAreBusLike(ls: seq<string>)
    requires AllBullets(ls)
    ensures BusLike(ls)
  {
    BulletsBegin(ls);
    WidenFirst(ls, {'-'}, {'-', 'D', 'A'});
    assert ANOMALIES[0] == 'A';
    BulletsFar(ls, ANOMALIES);
  }

  lemma StuckAreBusLike(r: Result)
    ensures BusLike(StuckLines(r))
  {
    var hi, lo := "Data stuck HIGH:", "Data stuck LOW:";
    var addr := "Addr stuck:";
    assert hi[0] == 'D' && hi[1] == 'a' && lo[0] == 'D' && lo[1] == 'a' && addr[0] == 'A' && addr[1] == 'd';
    MaskLinesAreBusLike(hi, r.stuckDataHi, 8);
    MaskLinesAreBusLike(lo, r.stuckDataLo, 8);
    MaskLinesAreBusLike(addr, r.stuckAddr, 16);
    JoinBusLike(MaskLines(hi, r.stuckDataHi, 8), MaskLines(lo, r.stuckDataLo, 8));
    JoinBusLike(MaskLines(hi, r.stuckDataHi, 8) + MaskLines(lo, r.stuckDataLo, 8), MaskLines(addr, r.stuckAddr, 16));
  }

  lemma OkIsBullet()
    ensures AllBullets(["- OK\n"])
  {
    EndLine("- OK");
    assert "- OK\n" == "- OK" + "\n";
  }

  lemma BusLinesAreBusLike(r: Result)
    ensures BusLike(BusLines(r))
  {
    OkIsBullet();
    BulletsAreBusLike(["- OK\n"]);
    StuckAreBusLike(r);
    FindingsAreBullets(r);
    BulletsAreBusLike(FindingLines(r));
    JoinBusLike(StuckLines(r), FindingLines(r));
  }

  lemma BusBegins(r: Result)
    ensures FirstIn(BusPart(r), {'-', 'D', 'A', 'B'}) && NoneBegins(BusPart(r), ANOMALIES)
  {
    BusHeadIs(r);
    BusLinesAreBusLike(r);
    assert ANOMALIES[0] == 'A';
    OneFirst(BusHead(r), {'-', 'D', 'A', 'B'});
    WidenFirst(BusLines(r), {'-', 'D', 'A'}, {'-', 'D', 'A', 'B'});
    JoinFirst([BusHead(r)], BusLines(r), {'-', 'D', 'A', 'B'});
    Differs(BusHead(r), ANOMALIES, 0);
    OneNone(BusHead(r), ANOMALIES);
    JoinNone([BusHead(r)], BusLines(r), ANOMALIES);
  }

  lemma AnomaliesBegin(flags: set<nat>)
    ensures FirstIn(AnomalyPart(flags), {'A', '-'}) && NoHeading(AnomalyLines(flags, ANOM_COUNT))
  {
    var head := "Anomalies:\n";
    assert head[0] == 'A';
    AnomaliesAreBullets(flags, ANOM_COUNT);
    BulletsBegin(AnomalyLines(flags, ANOM_COUNT));
    WidenFirst(AnomalyLines(flags, ANOM_COUNT), {'-'}, {'A', '-'});
    OneFirst(head, {'A', '-'});
    JoinFirst([head], AnomalyLines(flags, ANOM_COUNT), {'A', '-'});
  }

  lemma TextHeads()
    ensures Heading("\n") && Heading("Anomalies:\n")
  {
    var l := "Anomalies:\n";
    assert l[0] == 'A' && l[|l| - 2..] == ":\n";
  }

  lemma NextBegins(r: Result)
    ensures FirstIn(NextLines(r), {'\n', 'N'})
  {
    var a := "Next missing phase: ";
    assert a[0] == 'N' && "\n"[0] == '\n';
    assert NextLine(r)[0] == a[0];
    OneFirst("\n", {'\n', 'N'});
    OneFirst(NextLine(r), {'\n', 'N'});
    JoinFirst(["\n"], [NextLine(r)], {'\n', 'N'});
  }

  lemma PhasesBodyBegins(r: Result)
    ensures FirstIn(PhasesPart(r), {'-'}) && NoHeading(PhasesPart(r))
  {
    PhasesPartIsBullets(r);
    BulletsBegin(PhasesPart(r));
  }

  lemma CausesHeadIs()
    ensures CAUSES <= "Possible causes:\n"
  {
    assert "Possible causes:\n"[..16] == CAUSES;
  }

  lemma AnomaliesHeadIs()
    ensures ANOMALIES <= "Anomalies:\n"
  {
    assert "Anomalies:\n"[..10] == ANOMALIES;
  }

  lemma PhasesHeadIs()
    ensures PHASES <= "Phases:\n"
  {
    assert "Phases:\n"[..7] == PHASES;
  }

  // ----- the four sections -----

  lemma CausesPlace<T>(o: seq<T>, h: seq<T>, body: seq<T>, t: seq<T>, b: seq<T>, a: seq<T>, p: seq<T>)
    ensures o + (h + body + t) + b + a + p == o + (h + (body + (t + (b + a + p))))
  {
  }

  lemma CausesSectionIs(r: Result)
    ensures Section(LinesOf(r), CAUSES) == CauseBullets(r)
  {
    var h := "Possible causes:\n";
    var rest := ["\n"] + (BusPart(r) + AnomalyPart(r.anomalyFlags) + (HeadLines(r) + PhasesPart(r)));
    OpeningBegins(r);
    CauseBulletsBegin(r);
    TextHeads();
    CausesHeadIs();
    CausesPlace(OpeningLines(r), [h], CauseBullets(r), ["\n"], BusPart(r), AnomalyPart(r.anomalyFlags), HeadLines(r) + PhasesPart(r));
    SectionHere(LinesOf(r), OpeningLines(r), h, CauseBullets(r), rest, CAUSES);
  }

  lemma FrontBegins(r: Result, head: string)
    requires head == BUS || head == ANOMALIES
    ensures NoneBegins(OpeningLines(r) + CausesPart(r), head)
  {
    assert BUS[0] == 'B' && ANOMALIES[0] == 'A';
    OpeningBegins(r);
    CausesBegin(r);
    OpeningFar(OpeningLines(r), head);
    CausesFar(CausesPart(r), head);
    JoinNone(OpeningLines(r), CausesPart(r), head);
  }

  lemma BehindBusStops(r: Result)
    ensures Stops(AnomalyPart(r.anomalyFlags) + (HeadLines(r) + PhasesPart(r)))
  {
    TextHeads();
    var a, p := AnomalyPart(r.anomalyFlags), HeadLines(r) + PhasesPart(r);
    assert p[0] == "\n";
    if a == [] { assert a + p == p; } else { assert (a + p)[0] == "Anomalies:\n"; }
  }

  lemma BusPlace<T>(o: seq<T>, h: seq<T>, body: seq<T>, a: seq<T>, p: seq<T>)
    ensures o + (h + body) + a + p == o + (h + (body + (a + p)))
  {
  }

  lemma BusSectionIs(r: Result)
    ensures Section(LinesOf(r), BUS) == BusLines(r)
  {
    var rest := AnomalyPart(r.anomalyFlags) + (HeadLines(r) + PhasesPart(r));
    FrontBegins(r, BUS);
    BusHeadIs(r);
    BusLinesAreBusLike(r);
    BehindBusStops(r);
    BusPlace(OpeningLines(r) + CausesPart(r), [BusHead(r)], BusLines(r), AnomalyPart(r.anomalyFlags), HeadLines(r) + PhasesPart(r));
    SectionHere(LinesOf(r), OpeningLines(r) + CausesPart(r), BusHead(r), BusLines(r), rest, BUS);
  }

  lemma BeforeAnomalies(r: Result)
    ensures NoneBegins(OpeningLines(r) + CausesPart(r) + BusPart(r), ANOMALIES)
  {
    FrontBegins(r, ANOMALIES);
    BusBegins(r);
    JoinNone(OpeningLines(r) + CausesPart(r), BusPart(r), ANOMALIES);
  }

  lemma LastBegins(r: Result)
    ensures NoneBegins(HeadLines(r) + PhasesPart(r), ANOMALIES)
  {
    NextBegins(r);
    assert ANOMALIES[0] == 'A';
    NextFar(NextLines(r), ANOMALIES);
    assert NoneBegins(NextLines(r), ANOMALIES);
    PhasesBodyBegins(r);
    BulletsFar(PhasesPart(r), ANOMALIES);
    assert NoneBegins(PhasesPart(r), ANOMALIES);
    Differs("Phases:\n", ANOMALIES, 0);
    OneNone("Phases:\n", ANOMALIES);
    JoinNone(NextLines(r), ["Phases:\n"], ANOMALIES);
    assert NoneBegins(HeadLines(r), ANOMALIES);
    JoinNone(HeadLines(r), PhasesPart(r), ANOMALIES);
  }

  lemma AnomaliesPlace<T>(o: seq<T>, h: seq<T>, body: seq<T>, p: seq<T>)
    ensures o + (h + body) + p == o + (h + (body + p))
  {
  }

  lemma NoAnomaliesPlace<T>(o: seq<T>, p: seq<T>)
    ensures o + [] + p == o + p
  {
  }

  lemma AnomaliesSectionIs(r: Result)
    ensures Section(LinesOf(r), ANOMALIES) == if Zero(r.anomalyFlags, 16) then [] else AnomalyLines(r.anomalyFlags, ANOM_COUNT)
  {
    var before, last := OpeningLines(r) + CausesPart(r) + BusPart(r), HeadLines(r) + PhasesPart(r);
    var h, body := "Anomalies:\n", AnomalyLines(r.anomalyFlags, ANOM_COUNT);
    BeforeAnomalies(r);
    if Zero(r.anomalyFlags, 16) {
      LastBegins(r);
      JoinNone(before, last, ANOMALIES);
      NoAnomaliesPlace(before, last);
      SectionNowhere(LinesOf(r), ANOMALIES);
    } else {
      AnomaliesBegin(r.anomalyFlags);
      TextHeads();
      AnomaliesHeadIs();
      AnomaliesPlace(before, [h], body, last);
      SectionHere(LinesOf(r), before, h, body, last, ANOMALIES);
    }
  }

  lemma BeforePhases(r: Result)
    ensures NoneBegins(OpeningLines(r) + CausesPart(r) + BusPart(r) + AnomalyPart(r.anomalyFlags) + NextLines(r),
                       PHASES)
  {
    var o, c, b, a := OpeningLines(r), CausesPart(r), BusPart(r), AnomalyPart(r.anomalyFlags);
    var n := NextLines(r);
    assert PHASES[0] == 'P';
    OpeningBegins(r);
    CausesBegin(r);
    BusBegins(r);
    AnomaliesBegin(r.anomalyFlags);
    NextBegins(r);
    BusFar(b, PHASES);
    AnomaliesFar(a, PHASES);
    NextFar(n, PHASES);
    JoinNone(o, c, PHASES);
    JoinNone(o + c, b, PHASES);
    JoinNone(o + c + b, a, PHASES);
    JoinNone(o + c + b + a, n, PHASES);
  }

  lemma PhasesPlace<T>(o: seq<T>, n: seq<T>, h: seq<T>, body: seq<T>)
    ensures o + (n + h + body) == o + n + (h + (body + []))
  {
  }

  lemma PhasesSectionIs(r: Result)
    ensures Section(LinesOf(r), PHASES) == PhasesPart(r)
  {
    var o := OpeningLines(r) + CausesPart(r) + BusPart(r) + AnomalyPart(r.anomalyFlags);
    var n, h := NextLines(r), "Phases:\n";
    BeforePhases(r);
    PhasesBodyBegins(r);
    PhasesHeadIs();
    PhasesPlace(o, n, [h], PhasesPart(r));
    SectionHere(LinesOf(r), o + n, h, PhasesPart(r), [], PHASES);
  }
}
