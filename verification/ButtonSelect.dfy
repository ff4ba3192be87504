/** Which combos let SELECT keep its promise of one event per press: over every combo, every hold
  * time and every run of polls. */
module ButtonSelect {
  import opened Words
  import opened Buttons
  import opened ButtonRuns
  import opened ButtonTrace
  import opened ButtonExact

  /** After buttons_init and buttons_set_combo(a, b, hold). */
  function ComboStart(a: Event, b: Event, hold: nat): (s: State)
    ensures |s.btns| == 3
  {
    Start(hold).(combo := Combo(a, b, hold, 0, false, false, true))
  }

  /** What turn n of the run leaves and emits. */
  function After(a: Event, b: Event, hold: nat, h: seq<Sample>, n: nat): (r: TurnResult)
    requires Wellformed(h) && n <= |h|
    ensures |r.s.btns| == 3
  {
    if n == 0 then TurnResult(ComboStart(a, b, hold), NoEvent, false)
    else Turn(After(a, b, hold, h, n - 1).s, h[n - 1])
  }

  /** The combo is on, and exactly one of its two buttons is SELECT. */
  predicate SplitsSelect(a: Event, b: Event, hold: nat) { hold > 0 && (a == Select) != (b == Select) }

  /** Polls k and k' of one press of SELECT, a maximal LOW run, both emit it. */
  ghost predicate TwoSelects(a: Event, b: Event, hold: nat, h: seq<Sample>, s: nat, e: nat, k: nat, k': nat) {
    && Wellformed(h) && LowRun(h, 2, s, e) && s <= k < k' <= e
    && After(a, b, hold, h, k).event == After(a, b, hold, h, k').event == Select
  }

  // ----- every other combo: at most once -----

  predicate Buttons3(s: State, a: Event, b: Event, hold: nat) {
    && |s.btns| == 3 && s.btns[0].event == Up && s.btns[1].event == Down && s.btns[2].event == Select
    && s.combo.a == a && s.combo.b == b && s.combo.holdMs == hold
  }

  /** Between polls: no short of SELECT is pending, and its clock has not run ahead. */
  predicate Quiet(s: State, a: Event, b: Event, hold: nat, t: nat) {
    Buttons3(s, a, b, hold) && !s.btns[2].pendingShort && s.btns[2].lastChangeMs <= t
  }

  /** SELECT has fired and is still down. */
  predicate Spent(b: Btn, t: nat) {
    b.holdFired && !b.stable && !b.prevRaw && b.lastChangeMs <= t && t - b.lastChangeMs >= DEBOUNCE_MS
  }

  lemma ScanKeepsEvent(b: Btn, isCombo: bool, now: nat, raw: bool)
    ensures var (b', fires) := Scan(b, isCombo, now, raw);
            b'.event == b.event && (fires ==> !isCombo && b.event != Select)
  {
  }

  /** Pass 1 either returns early with an UP or DOWN, leaving SELECT as it was, or has scanned all. */
  lemma PassOne(s: State, now: nat, raw: seq<bool>, a: Event, b: Event, hold: nat) returns (early: bool, m: State)
    requires Buttons3(s, a, b, hold) && |raw| == 3
    ensures Buttons3(m, a, b, hold)
    ensures early ==> PollOf(s, now, raw).0 == m && PollOf(s, now, raw).1 != Select && m.btns[2] == s.btns[2]
    ensures !early ==> PollOf(s, now, raw) == From3(Pass2(m, now), 0, now)
    ensures !early ==> m.btns[2] == Scan(s.btns[2], IsComboBtn(s.combo, Select), now, raw[2]).0
  {
    var (b0, f0) := Scan(s.btns[0], IsComboBtn(s.combo, Up), now, raw[0]);
    var s1 := s.(btns := s.btns[0 := b0]);
    ScanKeepsEvent(s.btns[0], IsComboBtn(s.combo, Up), now, raw[0]);
    if f0 { return true, s1; }
    var (b1, f1) := Scan(s1.btns[1], IsComboBtn(s.combo, Down), now, raw[1]);
    var s2 := s1.(btns := s1.btns[1 := b1]);
    ScanKeepsEvent(s1.btns[1], IsComboBtn(s.combo, Down), now, raw[1]);
    assert From1(s1, 1, now, raw) == PollOf(s, now, raw);
    if f1 { return true, s2; }
    var (b2, f2) := Scan(s2.btns[2], IsComboBtn(s.combo, Select), now, raw[2]);
    ScanKeepsEvent(s2.btns[2], IsComboBtn(s.combo, Select), now, raw[2]);
    assert From1(s2, 2, now, raw) == PollOf(s, now, raw);
    early, m := false, s2.(btns := s2.btns[2 := b2]);
    assert From1(m, 3, now, raw) == PollOf(s, now, raw);
  }

  lemma FoundAt(btns: seq<Btn>)
    requires |btns| == 3 && btns[0].event == Up && btns[1].event == Down && btns[2].event == Select
    ensures FindFrom(btns, Up, 0) == 0 && FindFrom(btns, Down, 0) == 1
    ensures FindFrom(btns, Select, 0) == 2 && FindFrom(btns, NoEvent, 0) == -1
  {
    assert FindFrom(btns, Down, 1) == 1;
    assert FindFrom(btns, Select, 2) == 2;
    assert FindFrom(btns, Select, 1) == 2;
  }

  /** Pass 2 changes nothing of SELECT but a pending short, and with {SELECT, SELECT} clears that. */
  lemma PassTwo(m: State, now: nat, a: Event, b: Event, hold: nat)
    requires Buttons3(m, a, b, hold)
    ensures var p := Pass2(m, now);
            && Buttons3(p, a, b, hold)
            && p.btns[2].(pendingShort := m.btns[2].pendingShort) == m.btns[2]
            && (p.btns[2].pendingShort ==> m.btns[2].pendingShort)
            && (a == b == Select && hold > 0 && IsDebouncedPressed(m.btns[2], now) ==> !p.btns[2].pendingShort)
  {
    FoundAt(m.btns);
  }

  predicate ShortDue(b: Btn, now: nat) { b.pendingShort && Since(now, b.pressStartMs) >= COMBO_WINDOW_MS }

  /** Pass 3, when SELECT has no short pending. */
  lemma PassThree(p: State, now: nat, a: Event, b: Event, hold: nat)
    requires Buttons3(p, a, b, hold) && !p.btns[2].pendingShort
    ensures var r := From3(p, 0, now);
            || (r.1 != Select && Buttons3(r.0, a, b, hold) && r.0.btns[2] == p.btns[2])
            || r == From4(p, 0, now)
  {
    if ShortDue(p.btns[0], now) {
    } else {
      assert From3(p, 0, now) == From3(p, 1, now);
      if ShortDue(p.btns[1], now) {
      } else {
        assert From3(p, 1, now) == From3(p, 2, now);
        assert From3(p, 2, now) == From3(p, 3, now);
      }
    }
  }

  lemma PassFour(p: State, now: nat, a: Event, b: Event, hold: nat)
    requires Buttons3(p, a, b, hold)
    ensures From4(p, 0, now) ==
      if HoldFires(p.btns[2], now) then (p.(btns := p.btns[2 := p.btns[2].(holdFired := true)]), Select) else (p, NoEvent)
  {
    assert From4(p, 0, now) == From4(p, 1, now);
    assert From4(p, 1, now) == From4(p, 2, now);
  }

  /** Without a pending short, SELECT comes only from its hold. */
  lemma PassThreeAndFour(p: State, now: nat, a: Event, b: Event, hold: nat, r: (State, Event))
    requires Buttons3(p, a, b, hold) && !p.btns[2].pendingShort && r == From3(p, 0, now)
    ensures Buttons3(r.0, a, b, hold) && !r.0.btns[2].pendingShort
    ensures r.1 == Select ==> HoldFires(p.btns[2], now) && r.0.btns[2] == p.btns[2].(holdFired := true)
    ensures r.1 != Select ==> r.0.btns[2] == p.btns[2]
  {
    PassThree(p, now, a, b, hold);
    PassFour(p, now, a, b, hold);
  }

  lemma PendingAfterScan(b: Btn, isCombo: bool, now: nat, raw: bool)
    requires !b.pendingShort
    ensures var b' := Scan(b, isCombo, now, raw).0;
            b'.pendingShort ==> isCombo && IsDebouncedPressed(b', now)
  {
  }

  lemma ClockAfterScan(b: Btn, isCombo: bool, now: nat, raw: bool)
    requires b.lastChangeMs <= now
    ensures Scan(b, isCombo, now, raw).0.lastChangeMs <= now
  {
  }

  /** One poll with any other combo: SELECT stays quiet, and is spent when it is emitted. */
  lemma QuietPoll(s: State, now: nat, raw: seq<bool>, a: Event, b: Event, hold: nat, r: (State, Event))
    requires Quiet(s, a, b, hold, now) && |raw| == 3 && now < U32 && !SplitsSelect(a, b, hold)
    requires r == PollOf(s, now, raw)
    ensures Quiet(r.0, a, b, hold, now) && (r.1 == Select ==> Spent(r.0.btns[2], now))
  {
    var early, m := PassOne(s, now, raw, a, b, hold);
    if !early {
      PendingAfterScan(s.btns[2], IsComboBtn(s.combo, Select), now, raw[2]);
      ClockAfterScan(s.btns[2], IsComboBtn(s.combo, Select), now, raw[2]);
      PassTwo(m, now, a, b, hold);
      QuietEnd(Pass2(m, now), now, a, b, hold, r);
    }
  }

  lemma QuietEnd(p: State, now: nat, a: Event, b: Event, hold: nat, r: (State, Event))
    requires Quiet(p, a, b, hold, now) && now < U32 && r == From3(p, 0, now)
    ensures Quiet(r.0, a, b, hold, now) && (r.1 == Select ==> Spent(r.0.btns[2], now))
  {
    PassThreeAndFour(p, now, a, b, hold, r);
  }

  lemma SpentScan(b: Btn, isCombo: bool, t: nat, now: nat)
    requires Spent(b, t) && t <= now < U32 && !b.pendingShort
    ensures var b' := Scan(b, isCombo, now, false).0; Spent(b', now) && !HoldFires(b', now) && !b'.pendingShort
  {
  }

  /** While the line stays LOW, a spent SELECT is not emitted again. */
  lemma SpentPoll(s: State, t: nat, now: nat, raw: seq<bool>, a: Event, b: Event, hold: nat, r: (State, Event))
    requires Quiet(s, a, b, hold, t) && |raw| == 3 && !raw[2] && t <= now < U32
    requires Spent(s.btns[2], t) && r == PollOf(s, now, raw)
    ensures r.1 != Select && Spent(r.0.btns[2], now)
  {
    var early, m := PassOne(s, now, raw, a, b, hold);
    if !early {
      SpentScan(s.btns[2], IsComboBtn(s.combo, Select), t, now);
      PassTwo(m, now, a, b, hold);
      PassThreeAndFour(Pass2(m, now), now, a, b, hold, r);
    }
  }

  lemma CheckKeepsButtons(s: State, x: Sample, r: TurnResult, polled: (State, Event))
    requires |s.btns| == |x.raw| == 3 && r == Turn(s, x) && polled == PollOf(s, x.t, x.raw)
    ensures r.event == polled.1 && r.s.btns == polled.0.btns
    ensures r.s.combo.a == polled.0.combo.a && r.s.combo.b == polled.0.combo.b && r.s.combo.holdMs == polled.0.combo.holdMs
  {
  }

  lemma QuietTurn(s: State, x: Sample, a: Event, b: Event, hold: nat, r: TurnResult)
    requires Quiet(s, a, b, hold, x.t) && |x.raw| == 3 && x.t < U32 && !SplitsSelect(a, b, hold) && r == Turn(s, x)
    ensures Quiet(r.s, a, b, hold, x.t) && (r.event == Select ==> Spent(r.s.btns[2], x.t))
  {
    var polled := PollOf(s, x.t, x.raw);
    CheckKeepsButtons(s, x, r, polled);
    QuietPoll(s, x.t, x.raw, a, b, hold, polled);
  }

  lemma SpentTurn(s: State, t: nat, x: Sample, a: Event, b: Event, hold: nat, r: TurnResult)
    requires Quiet(s, a, b, hold, t) && |x.raw| == 3 && !x.raw[2] && t <= x.t < U32 && Spent(s.btns[2], t)
    requires r == Turn(s, x)
    ensures r.event != Select && Spent(r.s.btns[2], x.t)
  {
    var polled := PollOf(s, x.t, x.raw);
    CheckKeepsButtons(s, x, r, polled);
    SpentPoll(s, t, x.t, x.raw, a, b, hold, polled);
  }

  lemma SampleAt(h: seq<Sample>, n: nat)
    requires Wellformed(h) && 1 <= n <= |h|
    ensures T(h, n) == h[n - 1].t < U32 && |h[n - 1].raw| == 3 && T(h, n - 1) <= T(h, n)
    ensures High(h, 2, n) == h[n - 1].raw[2]
  {
  }

  lemma QuietLater(s: State, a: Event, b: Event, hold: nat, t: nat, later: nat)
    requires Quiet(s, a, b, hold, t) && t <= later
    ensures Quiet(s, a, b, hold, later)
  {
  }

  /** In this turn an emitted SELECT is spent, and a spent one stays so, and silent, while its line
    * is LOW. */
  predicate SpendsSelect(s: State, r: TurnResult, t: nat, t': nat, low: bool) {
    && |s.btns| == |r.s.btns| == 3
    && (r.event == Select ==> Spent(r.s.btns[2], t'))
    && (low && Spent(s.btns[2], t) ==> r.event != Select && Spent(r.s.btns[2], t'))
  }

  lemma TurnSpends(a: Event, b: Event, hold: nat, h: seq<Sample>, n: nat, s: State, r: TurnResult)
    requires Wellformed(h) && 0 < n <= |h| && |s.btns| == 3 && r == Turn(s, h[n - 1])
    ensures !SplitsSelect(a, b, hold) && Quiet(s, a, b, hold, T(h, n - 1)) ==>
      Quiet(r.s, a, b, hold, T(h, n)) && SpendsSelect(s, r, T(h, n - 1), T(h, n), !High(h, 2, n))
  {
    if !SplitsSelect(a, b, hold) && Quiet(s, a, b, hold, T(h, n - 1)) {
      SampleAt(h, n);
      QuietLater(s, a, b, hold, T(h, n - 1), T(h, n));
      QuietTurn(s, h[n - 1], a, b, hold, r);
      if !High(h, 2, n) && Spent(s.btns[2], T(h, n - 1)) {
        SpentTurn(s, T(h, n - 1), h[n - 1], a, b, hold, r);
      }
    }
  }

  /** Every turn so far has left SELECT quiet, and has spent it when it emitted it. */
  ghost predicate Behaves(a: Event, b: Event, hold: nat, h: seq<Sample>, n: nat)
    requires Wellformed(h) && n <= |h|
  {
    && Quiet(After(a, b, hold, h, n).s, a, b, hold, T(h, n))
    && (n > 0 ==>
          && Behaves(a, b, hold, h, n - 1)
          && SpendsSelect(After(a, b, hold, h, n - 1).s, After(a, b, hold, h, n), T(h, n - 1), T(h, n), !High(h, 2, n)))
  }

  lemma BehavesNext(a: Event, b: Event, hold: nat, h: seq<Sample>, n: nat)
    requires Wellformed(h) && 0 < n <= |h| && !SplitsSelect(a, b, hold) && Behaves(a, b, hold, h, n - 1)
    ensures Behaves(a, b, hold, h, n)
  {
    TurnSpends(a, b, hold, h, n, After(a, b, hold, h, n - 1).s, After(a, b, hold, h, n));
  }

  lemma AllBehave(a: Event, b: Event, hold: nat, h: seq<Sample>, n: nat)
    requires Wellformed(h) && n <= |h| && !SplitsSelect(a, b, hold)
    ensures Behaves(a, b, hold, h, n)
  {
    for i := 0 to n
      invariant Behaves(a, b, hold, h, i)
    {
      BehavesNext(a, b, hold, h, i + 1);
    }
  }

  /** Since it was emitted at poll k, SELECT has been spent and silent. */
  ghost predicate SilentSince(a: Event, b: Event, hold: nat, h: seq<Sample>, k: nat, n: nat)
    requires Wellformed(h) && k <= n <= |h|
  {
    && Spent(After(a, b, hold, h, n).s.btns[2], T(h, n))
    && (n > k ==> After(a, b, hold, h, n).event != Select && SilentSince(a, b, hold, h, k, n - 1))
  }

  lemma SilentFrom(a: Event, b: Event, hold: nat, h: seq<Sample>, k: nat)
    requires Wellformed(h) && 0 < k <= |h| && !SplitsSelect(a, b, hold) && After(a, b, hold, h, k).event == Select
    ensures SilentSince(a, b, hold, h, k, k)
  {
    AllBehave(a, b, hold, h, k);
  }

  lemma SilentNext(a: Event, b: Event, hold: nat, h: seq<Sample>, k: nat, n: nat)
    requires Wellformed(h) && 0 < k < n <= |h| && !SplitsSelect(a, b, hold) && !High(h, 2, n)
    requires SilentSince(a, b, hold, h, k, n - 1)
    ensures SilentSince(a, b, hold, h, k, n)
  {
    AllBehave(a, b, hold, h, n);
  }

  lemma SilentWhileLow(a: Event, b: Event, hold: nat, h: seq<Sample>, k: nat, n: nat)
    requires Wellformed(h) && 0 < k <= n <= |h| && !SplitsSelect(a, b, hold) && SilentSince(a, b, hold, h, k, k)
    requires forall j :: k <= j <= n ==> !High(h, 2, j)
    ensures SilentSince(a, b, hold, h, k, n)
  {
    for i := k to n
      invariant SilentSince(a, b, hold, h, k, i)
    {
      SilentNext(a, b, hold, h, k, i + 1);
    }
  }

  /** With every other combo, no press of SELECT emits twice, in any run. */
  lemma SelectOncePerPress(a: Event, b: Event, hold: nat, h: seq<Sample>, s: nat, e: nat, k: nat, k': nat)
    requires !SplitsSelect(a, b, hold)
    ensures !TwoSelects(a, b, hold, h, s, e, k, k')
  {
    if TwoSelects(a, b, hold, h, s, e, k, k') {
      SilentFrom(a, b, hold, h, k);
      SilentWhileLow(a, b, hold, h, k, k');
    }
  }

  // ----- a combo with one SELECT: a press that emits twice -----

  /** UP and DOWN were never touched, SELECT is `b2`, and no combo is under way. */
  predicate Alone(s: State, a: Event, b: Event, hold: nat, b2: Btn) {
    && s == State([FreshBtn(Up, 0), FreshBtn(Down, 0), b2], Combo(a, b, hold, 0, false, false, true))
    && b2.event == Select
  }

  function Dispatch(b2: Btn, now: nat): (Btn, Event) {
    if ShortDue(b2, now) then (b2.(pendingShort := false), Select)
    else if HoldFires(b2, now) then (b2.(holdFired := true), Select)
    else (b2, NoEvent)
  }

  /** One turn with UP and DOWN idle: only SELECT, registered as `b2`, can be dispatched. */
  lemma IdleTurn(s: State, t: nat, raw: bool, b1: Btn, b2: Btn, a: Event, b: Event, hold: nat, r: TurnResult)
    requires t < U32 && SplitsSelect(a, b, hold) && Alone(s, a, b, hold, b1)
    requires Scan(b1, true, t, raw) == (b2, false) && b2.event == Select
    requires r == Turn(s, Sample(t, [true, true, raw]))
    ensures Alone(r.s, a, b, hold, Dispatch(b2, t).0) && r.event == Dispatch(b2, t).1
  {
    var raws := [true, true, raw];
    assert s.btns[0 := s.btns[0]] == s.btns && s.btns[1 := s.btns[1]] == s.btns;
    ScanGoesOn(s, 0, t, raws, s.btns[0]);
    ScanGoesOn(s, 1, t, raws, s.btns[1]);
    ScanGoesOn(s, 2, t, raws, b2);
    var m := s.(btns := s.btns[2 := b2]);
    NoCommonPress(m, t, a, b, hold);
    DispatchSelect(m, t);
  }

  lemma NoCommonPress(m: State, now: nat, a: Event, b: Event, hold: nat)
    requires Buttons3(m, a, b, hold) && m.btns[0] == FreshBtn(Up, 0) && m.btns[1] == FreshBtn(Down, 0)
    requires SplitsSelect(a, b, hold) && !m.combo.intentActive
    ensures Pass2(m, now) == m
  {
    FoundAt(m.btns);
  }

  lemma DispatchSelect(m: State, now: nat)
    requires |m.btns| == 3 && m.btns[0] == FreshBtn(Up, 0) && m.btns[1] == FreshBtn(Down, 0) && m.btns[2].event == Select
    ensures var d := Dispatch(m.btns[2], now);
            && From3(m, 0, now).1 == d.1 && From3(m, 0, now).0.combo == m.combo
            && From3(m, 0, now).0.btns == [FreshBtn(Up, 0), FreshBtn(Down, 0), d.0]
  {
    assert From3(m, 1, now) == From3(m, 0, now);
    assert From4(m, 1, now) == From4(m, 0, now);
  }

  function SelectAt(t: nat, level: bool): Sample { Sample(t, [true, true, level]) }

  /** SELECT, armed at 20 ms, goes LOW at 30 ms and stays LOW. */
  function LongPressOfSelect(): seq<Sample> {
    [SelectAt(20, true), SelectAt(30, false), SelectAt(50, false), SelectAt(150, false), SelectAt(250, false)]
  }

  predicate IsLongPress(h: seq<Sample>) {
    && |h| == 5 && h[0] == SelectAt(20, true) && h[1] == SelectAt(30, false) && h[2] == SelectAt(50, false)
    && h[3] == SelectAt(150, false) && h[4] == SelectAt(250, false)
  }

  lemma LongPressIsLow(h: seq<Sample>)
    requires IsLongPress(h)
    ensures Wellformed(h) && LowRun(h, 2, 2, 5)
  {
  }

  /** One turn of the run: SELECT is scanned from b1 to b2 and then dispatched. */
  lemma NextAlone(a: Event, b: Event, hold: nat, h: seq<Sample>, n: nat, t: nat, level: bool, b1: Btn, b2: Btn, b3: Btn)
    requires Wellformed(h) && n < |h| && SplitsSelect(a, b, hold) && h[n] == SelectAt(t, level)
    requires Alone(After(a, b, hold, h, n).s, a, b, hold, b1)
    requires Scan(b1, true, t, level) == (b2, false) && b2.event == Select && Dispatch(b2, t).0 == b3
    ensures Alone(After(a, b, hold, h, n + 1).s, a, b, hold, b3)
    ensures After(a, b, hold, h, n + 1).event == Dispatch(b2, t).1
  {
    var s := After(a, b, hold, h, n).s;
    IdleTurn(s, t, level, b1, b2, a, b, hold, Turn(s, h[n]));
  }

  function ArmedSelect(): Btn { FreshBtn(Select, 0).(armed := true) }

  function LowSelect(): Btn { ArmedSelect().(prevRaw := false, lastChangeMs := 30) }

  function HeldSelect(): Btn { LowSelect().(stable := false, pressStartMs := 50) }

  function PendingSelect(): Btn { HeldSelect().(pendingShort := true) }

  lemma ScansUpToThePress()
    ensures Scan(FreshBtn(Select, 0), true, 20, true) == (ArmedSelect(), false) && Dispatch(ArmedSelect(), 20).0 == ArmedSelect()
    ensures Scan(ArmedSelect(), true, 30, false) == (LowSelect(), false) && Dispatch(LowSelect(), 30).0 == LowSelect()
    ensures Scan(LowSelect(), true, 50, false) == (PendingSelect(), false)
    ensures Dispatch(PendingSelect(), 50).0 == PendingSelect()
  {
  }

  lemma ScansOfThePress()
    ensures Scan(PendingSelect(), true, 150, false) == (PendingSelect(), false)
    ensures Dispatch(PendingSelect(), 150) == (HeldSelect(), Select)
    ensures Scan(HeldSelect(), true, 250, false) == (HeldSelect(), false)
    ensures Dispatch(HeldSelect(), 250).1 == Select
  {
  }

  lemma UntilArmed(a: Event, b: Event, hold: nat, h: seq<Sample>)
    requires SplitsSelect(a, b, hold) && IsLongPress(h) && Wellformed(h)
    ensures Alone(After(a, b, hold, h, 1).s, a, b, hold, ArmedSelect())
  {
    ScansUpToThePress();
    AloneAtFirst(a, b, hold, h);
    NextAlone(a, b, hold, h, 0, 20, true, FreshBtn(Select, 0), ArmedSelect(), ArmedSelect());
  }

  lemma AloneAtFirst(a: Event, b: Event, hold: nat, h: seq<Sample>)
    requires Wellformed(h)
    ensures Alone(After(a, b, hold, h, 0).s, a, b, hold, FreshBtn(Select, 0))
  {
  }

  lemma UntilLow(a: Event, b: Event, hold: nat, h: seq<Sample>)
    requires SplitsSelect(a, b, hold) && IsLongPress(h) && Wellformed(h)
    ensures Alone(After(a, b, hold, h, 2).s, a, b, hold, LowSelect())
  {
    ScansUpToThePress();
    UntilArmed(a, b, hold, h);
    NextAlone(a, b, hold, h, 1, 30, false, ArmedSelect(), LowSelect(), LowSelect());
  }

  lemma UntilPending(a: Event, b: Event, hold: nat, h: seq<Sample>)
    requires SplitsSelect(a, b, hold) && IsLongPress(h) && Wellformed(h)
    ensures Alone(After(a, b, hold, h, 3).s, a, b, hold, PendingSelect())
  {
    ScansUpToThePress();
    UntilLow(a, b, hold, h);
    NextAlone(a, b, hold, h, 2, 50, false, LowSelect(), PendingSelect(), PendingSelect());
  }

  /** The deferred short fires at 150 ms. */
  lemma UntilFirstSelect(a: Event, b: Event, hold: nat, h: seq<Sample>)
    requires SplitsSelect(a, b, hold) && IsLongPress(h) && Wellformed(h)
    ensures Alone(After(a, b, hold, h, 4).s, a, b, hold, HeldSelect()) && After(a, b, hold, h, 4).event == Select
  {
    ScansOfThePress();
    UntilPending(a, b, hold, h);
    NextAlone(a, b, hold, h, 3, 150, false, PendingSelect(), PendingSelect(), HeldSelect());
  }

  /** The hold fires at 250 ms. */
  lemma SelectFiresTwice(a: Event, b: Event, hold: nat, h: seq<Sample>)
    requires SplitsSelect(a, b, hold) && IsLongPress(h)
    ensures TwoSelects(a, b, hold, h, 2, 5, 4, 5)
  {
    LongPressIsLow(h);
    ScansOfThePress();
    UntilFirstSelect(a, b, hold, h);
    NextAlone(a, b, hold, h, 4, 250, false, HeldSelect(), HeldSelect(), Dispatch(HeldSelect(), 250).0);
  }

  /** Exactly when a press of SELECT can give two events: the combo is on and exactly one of its two
    * buttons is SELECT. */
  lemma SelectTwiceIff(a: Event, b: Event, hold: nat)
    ensures (exists h, s, e, k, k' :: TwoSelects(a, b, hold, h, s, e, k, k')) <==> SplitsSelect(a, b, hold)
  {
    if SplitsSelect(a, b, hold) {
      SelectFiresTwice(a, b, hold, LongPressOfSelect());
    } else {
      forall h, s, e, k, k'
        ensures !TwoSelects(a, b, hold, h, s, e, k, k')
      {
        SelectOncePerPress(a, b, hold, h, s, e, k, k');
      }
    }
  }
}
