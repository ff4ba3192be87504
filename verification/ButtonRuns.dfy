/** What the four passes of a poll do over whole runs, with the combo {UP, DOWN} that main.c
  * sets, in terms of which buttons the debouncer honours at each poll.
  *
  * Polls are numbered from 1; poll 0 stands for buttons_init. */
module ButtonRuns {
  import opened Words
  import opened Buttons

  /** Per poll: its time, and whether UP, DOWN, both of them, and SELECT are honoured as pressed. */
  datatype View = View(t: seq<nat>, up: seq<bool>, down: seq<bool>, both: seq<bool>, sel: seq<bool>)

  ghost predicate Wf(v: View) {
    && |v.t| == |v.up| == |v.down| == |v.both| == |v.sel| > 0
    && (forall n :: 0 <= n < |v.t| ==> v.both[n] == (v.up[n] && v.down[n]) && v.t[n] < U32)
    && (forall m, n :: 0 <= m < n < |v.t| ==> v.t[m] <= v.t[n])
    && !v.up[0] && !v.down[0] && !v.sel[0]
  }

  function Line(v: View, i: nat): seq<bool> { if i == 0 then v.up else v.down }

  /** The first poll of the streak of pressed polls that n belongs to. */
  function Onset(p: seq<bool>, n: nat): (s: nat)
    requires n < |p| && p[n]
    ensures s <= n && (s > 0 ==> !p[s - 1])
    ensures forall j :: s <= j <= n ==> p[j]
  {
    if n > 0 && p[n - 1] then Onset(p, n - 1) else n
  }

  predicate NoneIn(p: seq<bool>, from: nat, to: nat)
    requires to < |p|
  {
    forall j :: from <= j <= to ==> !p[j]
  }

  // ----- what each poll must emit -----

  /** The deferred short of UP (0) or DOWN (1): the first poll COMBO_WINDOW_MS or more after the
    * debounced press, unless both were pressed at some poll up to it. */
  predicate ShortFires(v: View, i: nat, n: nat)
    requires Wf(v) && n < |v.t|
  {
    && Line(v, i)[n]
    && var p := Onset(Line(v, i), n);
       && NoneIn(v.both, p, n)
       && v.t[n] - v.t[p] >= COMBO_WINDOW_MS
       && forall j :: p <= j < n ==> v.t[j] - v.t[p] < COMBO_WINDOW_MS
  }

  /** A poll at which a press of SELECT first honoured at p may fire. */
  predicate HoldDue(v: View, p: nat, n: nat)
    requires Wf(v) && p < |v.t| && n < |v.t|
  {
    v.t[n] - v.t[p] >= SELECT_HOLD_MS && !ShortFires(v, 0, n) && !ShortFires(v, 1, n)
  }

  predicate SelectFires(v: View, n: nat)
    requires Wf(v) && n < |v.t|
  {
    && v.sel[n]
    && var p := Onset(v.sel, n);
       HoldDue(v, p, n) && forall j :: p <= j < n ==> !HoldDue(v, p, j)
  }

  predicate ComboFires(v: View, n: nat, hold: nat)
    requires Wf(v) && n < |v.t|
  {
    && v.both[n]
    && var p := Onset(v.both, n);
       v.t[n] - v.t[p] >= hold && forall j :: p <= j < n ==> v.t[j] - v.t[p] < hold
  }

  function EventAt(v: View, n: nat): Event
    requires Wf(v) && n < |v.t|
  {
    if ShortFires(v, 0, n) then Up else if ShortFires(v, 1, n) then Down
    else if SelectFires(v, n) then Select else NoEvent
  }

  // ----- the state of one button after poll n -----

  ghost predicate PressInv(v: View, p: seq<bool>, n: nat, b: Btn)
    requires Wf(v) && |p| == |v.t| && n < |p|
  {
    b.stable == !p[n] && (p[n] ==> b.pressStartMs == v.t[Onset(p, n)])
  }

  ghost predicate ShortInv(v: View, i: nat, n: nat, b: Btn, pending: bool)
    requires Wf(v) && n < |v.t|
  {
    PressInv(v, Line(v, i), n, b) && b.event == (if i == 0 then Up else Down) && b.pendingShort == pending
  }

  /** A short still waiting after poll n. */
  predicate Pending(v: View, i: nat, n: nat)
    requires Wf(v) && n < |v.t|
  {
    && Line(v, i)[n]
    && var p := Onset(Line(v, i), n); NoneIn(v.both, p, n) && v.t[n] - v.t[p] < COMBO_WINDOW_MS
  }

  /** The same before poll n's combo pass. */
  predicate Scanned(v: View, i: nat, n: nat)
    requires Wf(v) && 0 < n < |v.t|
  {
    Line(v, i)[n] && (!Line(v, i)[n - 1] || Pending(v, i, n - 1))
  }

  ghost predicate SelectInv(v: View, n: nat, b: Btn, dispatched: bool)
    requires Wf(v) && n < |v.t|
  {
    && PressInv(v, v.sel, n, b) && b.event == Select && !b.pendingShort
    && (v.sel[n] ==> b.holdFired == dispatched)
  }

  /** The press of SELECT honoured at poll n was dispatched at or before poll m. */
  predicate Dispatched(v: View, n: nat, m: nat)
    requires Wf(v) && m <= n < |v.t|
  {
    v.sel[n] && exists j :: Onset(v.sel, n) <= j <= m && HoldDue(v, Onset(v.sel, n), j)
  }

  // ----- pass 1 -----

  lemma Elapsed(v: View, m: nat, n: nat)
    requires Wf(v) && m <= n < |v.t|
    ensures Since(v.t[n], v.t[m]) == v.t[n] - v.t[m] >= 0
  {
  }

  lemma RegisterShort(v: View, i: nat, n: nat, b: Btn)
    requires Wf(v) && 0 < n < |v.t|
    requires ShortInv(v, i, n - 1, b, Pending(v, i, n - 1)) && b.armed
    requires IsDebouncedPressed(b, v.t[n]) == Line(v, i)[n]
    ensures var r := Register(b, true, v.t[n]);
            !r.1 && ShortInv(v, i, n, r.0, Scanned(v, i, n))
  {
  }

  /** SELECT is honoured while it is debounced and armed, and is never disarmed while pressed. */
  lemma RegisterSelect(v: View, n: nat, b: Btn)
    requires Wf(v) && 0 < n < |v.t|
    requires SelectInv(v, n - 1, b, Dispatched(v, n - 1, n - 1))
    requires v.sel[n] == (IsDebouncedPressed(b, v.t[n]) && b.armed)
    requires v.sel[n - 1] ==> b.armed
    ensures var r := Register(b, false, v.t[n]);
            !r.1 && SelectInv(v, n, r.0, Dispatched(v, n, n - 1))
  {
  }

  lemma ScanGoesOn(s: State, i: nat, now: nat, raw: seq<bool>, b: Btn)
    requires i < 3 && |s.btns| == 3 && |raw| == 3
    requires Scan(s.btns[i], IsComboBtn(s.combo, s.btns[i].event), now, raw[i]) == (b, false)
    ensures From1(s, i, now, raw) == From1(s.(btns := s.btns[i := b]), i + 1, now, raw)
  {
  }

  /** Three scans in a row, none of which fires. */
  lemma AfterPass1(s: State, now: nat, raw: seq<bool>, m: State)
    requires |s.btns| == 3 && |raw| == 3 && |m.btns| == 3 && m.combo == s.combo
    requires s.btns[0].event == Up && s.btns[1].event == Down && s.btns[2].event == Select
    requires s.combo.a == Up && s.combo.b == Down && s.combo.holdMs > 0
    requires Scan(s.btns[0], true, now, raw[0]) == (m.btns[0], false)
    requires Scan(s.btns[1], true, now, raw[1]) == (m.btns[1], false)
    requires Scan(s.btns[2], false, now, raw[2]) == (m.btns[2], false)
    ensures PollOf(s, now, raw) == From3(Pass2(m, now), 0, now)
  {
    var s1 := s.(btns := s.btns[0 := m.btns[0]]);
    var s2 := s1.(btns := s1.btns[1 := m.btns[1]]);
    var s3 := s2.(btns := s2.btns[2 := m.btns[2]]);
    ScanGoesOn(s, 0, now, raw, m.btns[0]);
    ScanGoesOn(s1, 1, now, raw, m.btns[1]);
    ScanGoesOn(s2, 2, now, raw, m.btns[2]);
    assert s3.btns == m.btns;
  }

  // ----- pass 2 -----

  ghost predicate ComboInv(v: View, n: nat, c: Combo, hold: nat)
    requires Wf(v) && n < |v.t|
  {
    && c.a == Up && c.b == Down && c.holdMs == hold > 0
    && c.intentActive == v.both[n]
    && (v.both[n] ==> c.bothPressedSinceMs == v.t[Onset(v.both, n)])
    && (v.both[n] ==> c.fired == (v.t[n] - v.t[Onset(v.both, n)] >= hold))
    && (c.fired ==> c.consumed)
  }

  /** The same after the poll and before the check. */
  ghost predicate ComboPolled(v: View, n: nat, c: Combo, hold: nat)
    requires Wf(v) && n < |v.t|
  {
    && c.a == Up && c.b == Down && c.holdMs == hold > 0
    && c.intentActive == v.both[n]
    && (v.both[n] ==> c.bothPressedSinceMs == v.t[Onset(v.both, n)])
    && (v.both[n] ==> c.fired == (v.t[n] - v.t[Onset(v.both, n)] >= hold))
    && (c.fired && !c.consumed <==> ComboFires(v, n, hold))
  }

  /** The combo fields of pass 2. */
  function ComboNext(c: Combo, both: bool, now: nat): Combo {
    if !both then c.(intentActive := false)
    else
      var c1 := if c.intentActive then c
                else c.(intentActive := true, bothPressedSinceMs := now, fired := false, consumed := false);
      if !c1.fired && Since(now, c1.bothPressedSinceMs) >= c1.holdMs then c1.(fired := true, consumed := false) else c1
  }

  lemma ComboStep(v: View, n: nat, c: Combo, hold: nat)
    requires Wf(v) && 0 < n < |v.t| && ComboInv(v, n - 1, c, hold)
    ensures ComboPolled(v, n, ComboNext(c, v.both[n], v.t[n]), hold)
  {
    if v.both[n] {
      var p := Onset(v.both, n);
      Elapsed(v, p, n);
      Elapsed(v, n - 1, n);
      if p < n {
        assert v.both[n - 1] && Onset(v.both, n - 1) == p;
        assert forall j :: p <= j < n ==> v.t[j] <= v.t[n - 1];
      }
    }
  }

  lemma CheckStep(v: View, n: nat, s: State, hold: nat)
    requires Wf(v) && n < |v.t| && ComboPolled(v, n, s.combo, hold)
    ensures var r := CheckOf(s);
            r.1 == ComboFires(v, n, hold) && r.0.btns == s.btns && ComboInv(v, n, r.0.combo, hold)
  {
  }

  /** What pass 2 comes to with the combo {UP, DOWN}. */
  lemma Pass2Is(s: State, now: nat)
    requires |s.btns| == 3 && s.btns[0].event == Up && s.btns[1].event == Down
    requires s.combo.a == Up && s.combo.b == Down && s.combo.holdMs > 0
    ensures var both := IsDebouncedPressed(s.btns[0], now) && IsDebouncedPressed(s.btns[1], now);
            var r := Pass2(s, now);
            && r.combo == ComboNext(s.combo, both, now)
            && r.btns[2] == s.btns[2]
            && r.btns[0] == (if both then s.btns[0].(pendingShort := false) else s.btns[0])
            && r.btns[1] == (if both then s.btns[1].(pendingShort := false) else s.btns[1])
  {
    assert FindFrom(s.btns, Up, 0) == 0;
    assert FindFrom(s.btns, Down, 1) == 1;
    assert FindFrom(s.btns, Down, 0) == 1;
  }

  // ----- passes 3 and 4 -----

  lemma AllEarlier(v: View, p: nat, n: nat, limit: nat)
    requires Wf(v) && p < n < |v.t|
    ensures (forall j :: p <= j < n ==> v.t[j] - v.t[p] < limit) <==> v.t[n - 1] - v.t[p] < limit
  {
    forall j | p <= j < n ensures v.t[j] <= v.t[n - 1] {}
  }

  lemma NoneStep(p: seq<bool>, from: nat, n: nat)
    requires 0 < n < |p| && from < n
    ensures NoneIn(p, from, n) <==> NoneIn(p, from, n - 1) && !p[n]
  {
  }

  /** A press that went on: what was pending one poll earlier decides. */
  lemma ShortGoesOn(v: View, i: nat, n: nat)
    requires Wf(v) && 0 < n < |v.t| && Line(v, i)[n] && Line(v, i)[n - 1]
    ensures var since := v.t[n] - v.t[Onset(Line(v, i), n)];
            var waiting := Pending(v, i, n - 1) && !v.both[n];
            && (ShortFires(v, i, n) <==> waiting && since >= COMBO_WINDOW_MS)
            && (Pending(v, i, n) <==> waiting && since < COMBO_WINDOW_MS)
  {
    var p := Onset(Line(v, i), n);
    assert p == Onset(Line(v, i), n - 1) < n;
    AllEarlier(v, p, n, COMBO_WINDOW_MS);
    NoneStep(v.both, p, n);
  }

  /** A press that just began is never due. */
  lemma ShortBegins(v: View, i: nat, n: nat)
    requires Wf(v) && 0 < n < |v.t| && Line(v, i)[n] && !Line(v, i)[n - 1]
    ensures !ShortFires(v, i, n) && (Pending(v, i, n) <==> !v.both[n]) && Onset(Line(v, i), n) == n
  {
  }

  lemma ShortFiresIff(v: View, i: nat, n: nat)
    requires Wf(v) && 0 < n < |v.t| && Line(v, i)[n]
    ensures var late := v.t[n] - v.t[Onset(Line(v, i), n)] >= COMBO_WINDOW_MS;
            && (ShortFires(v, i, n) <==> Scanned(v, i, n) && !v.both[n] && late)
            && (Pending(v, i, n) <==> Scanned(v, i, n) && !v.both[n] && !late)
  {
    if Line(v, i)[n - 1] { ShortGoesOn(v, i, n); } else { ShortBegins(v, i, n); }
  }

  /** At most one of the two shorts can be due at a poll. */
  lemma OneShortAtATime(v: View, n: nat)
    requires Wf(v) && n < |v.t|
    ensures !(ShortFires(v, 0, n) && ShortFires(v, 1, n))
    ensures v.both[n] ==> !ShortFires(v, 0, n) && !ShortFires(v, 1, n)
  {
  }

  lemma DispatchedStep(v: View, n: nat)
    requires Wf(v) && 0 < n < |v.t| && v.sel[n]
    ensures var p := Onset(v.sel, n);
            && (Dispatched(v, n, n) <==> Dispatched(v, n, n - 1) || HoldDue(v, p, n))
            && (SelectFires(v, n) <==> !Dispatched(v, n, n - 1) && HoldDue(v, p, n))
  {
  }

  function Fire(b: Btn, fires: bool): Btn { if fires then b.(pendingShort := false) else b }

  function Hold(b: Btn, fires: bool): Btn { if fires then b.(holdFired := true) else b }

  function Dispatched3(s: State, up: bool, down: bool, select: bool): (State, Event)
    requires |s.btns| == 3
  {
    (s.(btns := [Fire(s.btns[0], up), Fire(s.btns[1], down), Hold(s.btns[2], select)]),
     if up then Up else if down then Down else if select then Select else NoEvent)
  }

  /** Passes 3 and 4, given which of UP, DOWN and SELECT is due; at most one is dispatched. */
  lemma Dispatches(s: State, now: nat, up: bool, down: bool, select: bool)
    requires |s.btns| == 3 && s.btns[0].event == Up && s.btns[1].event == Down && s.btns[2].event == Select
    requires up == (s.btns[0].pendingShort && Since(now, s.btns[0].pressStartMs) >= COMBO_WINDOW_MS)
    requires down == (s.btns[1].pendingShort && Since(now, s.btns[1].pressStartMs) >= COMBO_WINDOW_MS)
    requires !(up && down) && !s.btns[2].pendingShort
    requires select == (!up && !down && HoldFires(s.btns[2], now))
    ensures From3(s, 0, now) == Dispatched3(s, up, down, select)
  {
    var bs := s.btns;
    if up {
      assert bs[0 := Fire(bs[0], true)] == [Fire(bs[0], true), bs[1], bs[2]];
    } else if down {
      assert From3(s, 0, now) == From3(s, 1, now);
      assert bs[1 := Fire(bs[1], true)] == [bs[0], Fire(bs[1], true), bs[2]];
    } else {
      assert From3(s, 0, now) == From3(s, 1, now) == From3(s, 2, now) == From4(s, 0, now);
      assert From4(s, 0, now) == From4(s, 1, now) == From4(s, 2, now);
      assert bs[2 := Hold(bs[2], true)] == [bs[0], bs[1], Hold(bs[2], true)];
      assert bs == [bs[0], bs[1], bs[2]];
    }
  }

  lemma DueNow(v: View, n: nat, s: State, up: bool, down: bool, select: bool)
    requires Wf(v) && 0 < n < |v.t| && |s.btns| == 3
    requires ShortInv(v, 0, n, s.btns[0], Scanned(v, 0, n) && !v.both[n])
    requires ShortInv(v, 1, n, s.btns[1], Scanned(v, 1, n) && !v.both[n])
    requires SelectInv(v, n, s.btns[2], Dispatched(v, n, n - 1))
    requires v.sel[n] ==> IsDebouncedPressed(s.btns[2], v.t[n])
    requires up == ShortFires(v, 0, n) && down == ShortFires(v, 1, n) && select == (!up && !down && SelectFires(v, n))
    ensures From3(s, 0, v.t[n]) == Dispatched3(s, up, down, select)
    ensures ShortInv(v, 0, n, Fire(s.btns[0], up), Pending(v, 0, n))
    ensures ShortInv(v, 1, n, Fire(s.btns[1], down), Pending(v, 1, n))
    ensures SelectInv(v, n, Hold(s.btns[2], select), Dispatched(v, n, n))
  {
    DueShort(v, 0, n, s.btns[0]);
    DueShort(v, 1, n, s.btns[1]);
    OneShortAtATime(v, n);
    DueHold(v, n, s.btns[2]);
    Dispatches(s, v.t[n], up, down, select);
  }

  /** What passes 3 and 4 leave, started from what passes 1 and 2 left. */
  lemma DispatchStep(v: View, n: nat, s: State, r: (State, Event), up: bool, down: bool, select: bool)
    requires Wf(v) && 0 < n < |v.t| && |s.btns| == 3 && r == Dispatched3(s, up, down, select)
    requires up == ShortFires(v, 0, n) && down == ShortFires(v, 1, n) && select == (!up && !down && SelectFires(v, n))
    requires ShortInv(v, 0, n, Fire(s.btns[0], up), Pending(v, 0, n))
    requires ShortInv(v, 1, n, Fire(s.btns[1], down), Pending(v, 1, n))
    requires SelectInv(v, n, Hold(s.btns[2], select), Dispatched(v, n, n))
    ensures r.1 == EventAt(v, n) && r.0.combo == s.combo && |r.0.btns| == 3
    ensures SameLines(r.0.btns, s.btns)
    ensures ShortInv(v, 0, n, r.0.btns[0], Pending(v, 0, n))
    ensures ShortInv(v, 1, n, r.0.btns[1], Pending(v, 1, n))
    ensures SelectInv(v, n, r.0.btns[2], Dispatched(v, n, n))
  {
  }

  predicate SameLine(a: Btn, b: Btn) {
    a.prevRaw == b.prevRaw && a.lastChangeMs == b.lastChangeMs && a.armed == b.armed
  }

  predicate SameLines(a: seq<Btn>, b: seq<Btn>) {
    |a| == |b| == 3 && SameLine(a[0], b[0]) && SameLine(a[1], b[1]) && SameLine(a[2], b[2])
  }

  lemma DueShort(v: View, i: nat, n: nat, b: Btn)
    requires Wf(v) && 0 < n < |v.t| && ShortInv(v, i, n, b, Scanned(v, i, n) && !v.both[n])
    ensures (b.pendingShort && Since(v.t[n], b.pressStartMs) >= COMBO_WINDOW_MS) == ShortFires(v, i, n)
    ensures ShortInv(v, i, n, if ShortFires(v, i, n) then b.(pendingShort := false) else b, Pending(v, i, n))
  {
    if Line(v, i)[n] {
      ShortFiresIff(v, i, n);
      Elapsed(v, Onset(Line(v, i), n), n);
    }
  }

  lemma DueHold(v: View, n: nat, b: Btn)
    requires Wf(v) && 0 < n < |v.t| && SelectInv(v, n, b, Dispatched(v, n, n - 1))
    requires v.sel[n] ==> IsDebouncedPressed(b, v.t[n])
    ensures ShortFires(v, 0, n) || ShortFires(v, 1, n) ==> SelectInv(v, n, b, Dispatched(v, n, n))
    ensures !ShortFires(v, 0, n) && !ShortFires(v, 1, n) ==>
      && HoldFires(b, v.t[n]) == SelectFires(v, n)
      && SelectInv(v, n, if SelectFires(v, n) then b.(holdFired := true) else b, Dispatched(v, n, n))
  {
    if v.sel[n] {
      DispatchedStep(v, n);
      Elapsed(v, Onset(v.sel, n), n);
    }
  }

  // ----- a whole turn -----

  ghost predicate TurnInv(v: View, n: nat, s: State, hold: nat)
    requires Wf(v) && n < |v.t|
  {
    && |s.btns| == 3
    && ShortInv(v, 0, n, s.btns[0], Pending(v, 0, n))
    && ShortInv(v, 1, n, s.btns[1], Pending(v, 1, n))
    && SelectInv(v, n, s.btns[2], Dispatched(v, n, n))
    && ComboInv(v, n, s.combo, hold)
  }

  /** The debouncer's verdict on the three tracked buttons is the view's. */
  ghost predicate Agrees(v: View, n: nat, b0: Btn, b1: Btn, b2: Btn)
    requires Wf(v) && 0 < n < |v.t|
  {
    && b0.armed && b1.armed
    && IsDebouncedPressed(b0, v.t[n]) == v.up[n] && IsDebouncedPressed(b1, v.t[n]) == v.down[n]
    && (v.sel[n] == (IsDebouncedPressed(b2, v.t[n]) && b2.armed))
    && (v.sel[n - 1] ==> b2.armed)
  }

  lemma RegisterKeepsLine(b: Btn, isCombo: bool, now: nat)
    ensures var r := Register(b, isCombo, now).0; SameLine(r, b) && r.event == b.event
    ensures IsDebouncedPressed(Register(b, isCombo, now).0, now) == IsDebouncedPressed(b, now)
  {
  }

  /** Pass 1 after tracking: no button dispatches at once. */
  lemma RegisterAll(v: View, n: nat, s: State, tracked: seq<Btn>) returns (m: State)
    requires Wf(v) && 0 < n < |v.t| && |s.btns| == |tracked| == 3 && Agrees(v, n, tracked[0], tracked[1], tracked[2])
    requires ShortInv(v, 0, n - 1, tracked[0], Pending(v, 0, n - 1))
    requires ShortInv(v, 1, n - 1, tracked[1], Pending(v, 1, n - 1))
    requires SelectInv(v, n - 1, tracked[2], Dispatched(v, n - 1, n - 1))
    ensures |m.btns| == 3 && m.combo == s.combo
    ensures Register(tracked[0], true, v.t[n]) == (m.btns[0], false)
    ensures Register(tracked[1], true, v.t[n]) == (m.btns[1], false)
    ensures Register(tracked[2], false, v.t[n]) == (m.btns[2], false)
    ensures ShortInv(v, 0, n, m.btns[0], Scanned(v, 0, n)) && ShortInv(v, 1, n, m.btns[1], Scanned(v, 1, n))
    ensures SelectInv(v, n, m.btns[2], Dispatched(v, n, n - 1))
    ensures SameLines(m.btns, tracked)
    ensures IsDebouncedPressed(m.btns[0], v.t[n]) == v.up[n] && IsDebouncedPressed(m.btns[1], v.t[n]) == v.down[n]
    ensures v.sel[n] ==> IsDebouncedPressed(m.btns[2], v.t[n])
  {
    RegisterKeepsLine(tracked[0], true, v.t[n]);
    RegisterKeepsLine(tracked[1], true, v.t[n]);
    RegisterKeepsLine(tracked[2], false, v.t[n]);
    RegisterShort(v, 0, n, tracked[0]);
    RegisterShort(v, 1, n, tracked[1]);
    RegisterSelect(v, n, tracked[2]);
    m := State([Register(tracked[0], true, v.t[n]).0, Register(tracked[1], true, v.t[n]).0,
                Register(tracked[2], false, v.t[n]).0], s.combo);
  }

  lemma TrackKeepsPress(v: View, n: nat, s: State, raw: seq<bool>, hold: nat)
    requires Wf(v) && 0 < n < |v.t| && |raw| == 3 && TurnInv(v, n - 1, s, hold)
    ensures ShortInv(v, 0, n - 1, Track(s.btns[0], v.t[n], raw[0]), Pending(v, 0, n - 1))
    ensures ShortInv(v, 1, n - 1, Track(s.btns[1], v.t[n], raw[1]), Pending(v, 1, n - 1))
    ensures SelectInv(v, n - 1, Track(s.btns[2], v.t[n], raw[2]), Dispatched(v, n - 1, n - 1))
  {
  }

  /** A whole turn, from the tracked buttons on: it emits what it must and keeps the invariant. */
  lemma PollStep(v: View, n: nat, s: State, raw: seq<bool>, tracked: seq<Btn>, r: (State, Event), hold: nat)
    requires Wf(v) && 0 < n < |v.t| && |raw| == |tracked| == 3 && TurnInv(v, n - 1, s, hold)
    requires tracked[0] == Track(s.btns[0], v.t[n], raw[0])
    requires tracked[1] == Track(s.btns[1], v.t[n], raw[1])
    requires tracked[2] == Track(s.btns[2], v.t[n], raw[2])
    requires Agrees(v, n, tracked[0], tracked[1], tracked[2])
    requires r == PollOf(s, v.t[n], raw)
    ensures var (s2, c) := CheckOf(r.0);
            && TurnInv(v, n, s2, hold) && r.1 == EventAt(v, n) && c == ComboFires(v, n, hold)
            && SameLines(s2.btns, tracked)
  {
    TrackKeepsPress(v, n, s, raw, hold);
    var m := RegisterAll(v, n, s, tracked);
    AfterPass1(s, v.t[n], raw, m);
    FinishPoll(v, n, m, r, hold);
  }

  /** Passes 2 to 4 and the check. */
  lemma FinishPoll(v: View, n: nat, m: State, r: (State, Event), hold: nat)
    requires Wf(v) && 0 < n < |v.t| && |m.btns| == 3 && ComboInv(v, n - 1, m.combo, hold)
    requires ShortInv(v, 0, n, m.btns[0], Scanned(v, 0, n)) && IsDebouncedPressed(m.btns[0], v.t[n]) == v.up[n]
    requires ShortInv(v, 1, n, m.btns[1], Scanned(v, 1, n)) && IsDebouncedPressed(m.btns[1], v.t[n]) == v.down[n]
    requires SelectInv(v, n, m.btns[2], Dispatched(v, n, n - 1)) && (v.sel[n] ==> IsDebouncedPressed(m.btns[2], v.t[n]))
    requires r == From3(Pass2(m, v.t[n]), 0, v.t[n])
    ensures var (s2, c) := CheckOf(r.0);
            && TurnInv(v, n, s2, hold) && r.1 == EventAt(v, n) && c == ComboFires(v, n, hold)
            && SameLines(s2.btns, m.btns)
  {
    var p := Pass2(m, v.t[n]);
    ComboPass(v, n, m, p, hold);
    PassesThreeAndFour(v, n, p, r);
    CheckStep(v, n, r.0, hold);
  }

  lemma PassesThreeAndFour(v: View, n: nat, p: State, r: (State, Event))
    requires Wf(v) && 0 < n < |v.t| && |p.btns| == 3 && r == From3(p, 0, v.t[n])
    requires ShortInv(v, 0, n, p.btns[0], Scanned(v, 0, n) && !v.both[n])
    requires ShortInv(v, 1, n, p.btns[1], Scanned(v, 1, n) && !v.both[n])
    requires SelectInv(v, n, p.btns[2], Dispatched(v, n, n - 1))
    requires v.sel[n] ==> IsDebouncedPressed(p.btns[2], v.t[n])
    ensures r.1 == EventAt(v, n) && r.0.combo == p.combo && |r.0.btns| == 3 && SameLines(r.0.btns, p.btns)
    ensures ShortInv(v, 0, n, r.0.btns[0], Pending(v, 0, n))
    ensures ShortInv(v, 1, n, r.0.btns[1], Pending(v, 1, n))
    ensures SelectInv(v, n, r.0.btns[2], Dispatched(v, n, n))
  {
    var up, down := ShortFires(v, 0, n), ShortFires(v, 1, n);
    DueNow(v, n, p, up, down, !up && !down && SelectFires(v, n));
    DispatchStep(v, n, p, r, up, down, !up && !down && SelectFires(v, n));
  }

  lemma ComboPass(v: View, n: nat, m: State, p: State, hold: nat)
    requires Wf(v) && 0 < n < |v.t| && |m.btns| == 3 && ComboInv(v, n - 1, m.combo, hold)
    requires ShortInv(v, 0, n, m.btns[0], Scanned(v, 0, n)) && IsDebouncedPressed(m.btns[0], v.t[n]) == v.up[n]
    requires ShortInv(v, 1, n, m.btns[1], Scanned(v, 1, n)) && IsDebouncedPressed(m.btns[1], v.t[n]) == v.down[n]
    requires p == Pass2(m, v.t[n])
    ensures ShortInv(v, 0, n, p.btns[0], Scanned(v, 0, n) && !v.both[n])
    ensures ShortInv(v, 1, n, p.btns[1], Scanned(v, 1, n) && !v.both[n])
    ensures p.btns[2] == m.btns[2] && SameLines(p.btns, m.btns)
    ensures ComboPolled(v, n, p.combo, hold)
  {
    Pass2Is(m, v.t[n]);
    ComboStep(v, n, m.combo, hold);
  }
}
